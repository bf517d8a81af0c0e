/** Removal of the Markdown code fences the model wraps its HTML in. The
    Netlify functions delete every fence with two global regular-expression
    replacements and trim; the Express server instead cuts the text with
    `split` and does not trim. */
module Cleanup {
  import opened Js
  import opened Regex

  const Backticks: string := "```"
  const HtmlFence: string := "```html"

  /** `text.replace(/```html\n?/g, '').replace(/```\n?/g, '').trim()`, the
      clean-up step of all four Netlify functions */
  function StripFences(text: string): (r: string)
    ensures !Contains(r, Backticks)
    ensures IsTrimmed(r)
  {
    var noHtmlFence := ReplaceAll(Of(FenceHtml), Lit(""), text);
    var noFence := ReplaceAll(Of(Fence), Lit(""), noHtmlFence);
    FenceRemovalLeavesNone(noHtmlFence);
    TrimKeepsAbsence(noFence, Backticks);
    Trim(noFence)
  }

  /** "```" at i, character by character */
  lemma BackticksAt(s: string, i: nat)
    ensures At(s, i, Backticks) <==> i + 3 <= |s| && s[i] == '`' && s[i + 1] == '`' && s[i + 2] == '`'
  {
    if i + 3 <= |s| && s[i] == '`' && s[i + 1] == '`' && s[i + 2] == '`' {
      forall d | 0 <= d < 3 ensures s[i + d] == Backticks[d] {
        assert d == 0 || d == 1 || d == 2;
      }
    }
    if At(s, i, Backticks) {
      assert s[i + 0] == Backticks[0] && s[i + 1] == Backticks[1] && s[i + 2] == Backticks[2];
    }
  }

  /** Every "```html" starts with "```" */
  lemma HtmlFenceStartsWithBackticks(s: string, i: nat)
    ensures At(s, i, HtmlFence) ==> At(s, i, Backticks)
  {
    if At(s, i, HtmlFence) {
      assert s[i] == HtmlFence[0] && s[i + 1] == HtmlFence[1] && s[i + 2] == HtmlFence[2];
      BackticksAt(s, i);
    }
  }

  /** A string with no leading backtick keeps its first character through
      fence removal */
  lemma KeepsFirst(t: string)
    requires |t| > 0 && t[0] != '`'
    ensures |ReplaceAll(Of(Fence), Lit(""), t)| > 0 && ReplaceAll(Of(Fence), Lit(""), t)[0] == t[0]
  {
    BackticksAt(t, 0);
    ReplaceAllUnmatched(Of(Fence), Lit(""), t);
  }

  /** After a character that starts no fence, the output cannot begin with
      "```": a backtick in front of a fence would itself have started one */
  lemma NoFenceAtFront(s: string)
    requires |s| > 0 && MatchHere(Fence, s).None?
    ensures !At([s[0]] + ReplaceAll(Of(Fence), Lit(""), s[1..]), 0, Backticks)
  {
    var rest := ReplaceAll(Of(Fence), Lit(""), s[1..]);
    var r := [s[0]] + rest;
    BackticksAt(r, 0);
    BackticksAt(s, 0);
    if s[0] != '`' {
      assert r[0] != '`';
    } else if |s| == 1 {
      assert s[1..] == [];
      assert |r| == 1;
    } else if s[1] != '`' {
      KeepsFirst(s[1..]);
      assert r[1] != '`';
    } else {
      var t := s[1..];
      BackticksAt(t, 0);
      ReplaceAllUnmatched(Of(Fence), Lit(""), t);
      if |s| == 2 {
        assert t[1..] == [];
        assert |r| == 2;
      } else {
        KeepsFirst(t[1..]);
        assert r[2] != '`';
      }
    }
  }

  /** Prefixing one character adds no occurrence except possibly at the front */
  lemma ConsKeepsAbsence(c: char, rest: string, lit: string)
    requires !Contains(rest, lit) && !At([c] + rest, 0, lit)
    ensures !Contains([c] + rest, lit)
  {
    var r := [c] + rest;
    forall k | 0 < k <= |r| ensures At(r, k, lit) == At(rest, k - 1, lit) {
      if k + |lit| <= |r| {
        forall d | 0 <= d < |lit| ensures (r[k + d] == lit[d]) == (rest[k - 1 + d] == lit[d]) { }
      }
    }
  }

  /** Deleting every leftmost "```" (and the newline after it) cannot leave
      a new "```" behind, although deletion joins what was around it */
  lemma {:induction false} FenceRemovalLeavesNone(s: string)
    ensures !Contains(ReplaceAll(Of(Fence), Lit(""), s), Backticks)
    decreases |s|
  {
    if |s| == 0 {
    } else if MatchHere(Fence, s).Some? {
      var m := MatchHere(Fence, s).value;
      assert ReplaceAll(Of(Fence), Lit(""), s) == ReplaceAll(Of(Fence), Lit(""), s[m.len..]);
      FenceRemovalLeavesNone(s[m.len..]);
    } else {
      ReplaceAllUnmatched(Of(Fence), Lit(""), s);
      FenceRemovalLeavesNone(s[1..]);
      NoFenceAtFront(s);
      ConsKeepsAbsence(s[0], ReplaceAll(Of(Fence), Lit(""), s[1..]), Backticks);
    }
  }

  /** An occurrence inside a slice is an occurrence in the whole */
  lemma AtInSlice(s: string, i: nat, j: nat, k: nat, lit: string)
    requires i <= j <= |s|
    ensures At(s[i..j], k, lit) ==> At(s, i + k, lit)
  {
    if At(s[i..j], k, lit) {
      forall d | 0 <= d < |lit| ensures s[i + k + d] == lit[d] {
        assert s[i..j][k + d] == s[i + k + d];
      }
    }
  }

  /** A part of a string cut out by `trim` has no occurrence the whole lacked */
  lemma TrimKeepsAbsence(s: string, lit: string)
    requires !Contains(s, lit)
    ensures !Contains(Trim(s), lit)
  {
    var i, j :| 0 <= i <= j <= |s| && Trim(s) == s[i..j] && AllSpace(s[..i]) && AllSpace(s[j..]);
    forall k | 0 <= k <= j - i ensures !At(s[i..j], k, lit) {
      AtInSlice(s, i, j, k, lit);
    }
  }

  /** A fence of either kind begins with three backticks */
  lemma FenceMatchNeedsBackticks(s: string, k: nat)
    requires k < |s|
    requires MatchHere(FenceHtml, s[k..]).Some? || MatchHere(Fence, s[k..]).Some?
    ensures At(s, k, Backticks)
  {
    HtmlFenceStartsWithBackticks(s[k..], 0);
    AtInSlice(s, k, |s|, 0, Backticks);
  }

  /** The clean-up leaves exactly the texts that have no fence and no
      surrounding whitespace unchanged */
  lemma StripFencesFixedPoints(text: string)
    ensures StripFences(text) == text <==> !Contains(text, Backticks) && IsTrimmed(text)
  {
    if !Contains(text, Backticks) && IsTrimmed(text) {
      forall k | 0 <= k < |text|
        ensures MatchHere(FenceHtml, text[k..]).None? && MatchHere(Fence, text[k..]).None?
      {
        if MatchHere(FenceHtml, text[k..]).Some? || MatchHere(Fence, text[k..]).Some? {
          FenceMatchNeedsBackticks(text, k);
        }
      }
      ReplaceAllNoMatch(Of(FenceHtml), Lit(""), text);
      ReplaceAllNoMatch(Of(Fence), Lit(""), text);
      TrimmedIsFixed(text);
    }
  }

  /** Cleaning twice is cleaning once */
  lemma StripFencesIdempotent(text: string)
    ensures StripFences(StripFences(text)) == StripFences(text)
  {
    StripFencesFixedPoints(StripFences(text));
  }

  /** `s.split(sep)[0]`: the text before the first occurrence of sep */
  function Before(s: string, sep: string): (r: string)
    ensures |r| <= |s| && r == s[..|r|]
    ensures !Contains(s, sep) ==> r == s
    ensures Contains(s, sep) ==> At(s, |r|, sep) && forall k :: 0 <= k < |r| ==> !At(s, k, sep)
  {
    match IndexOf(s, sep)
    case Some(i) => s[..i]
    case None => s
  }

  /** The text after the first occurrence of sep, so that `s.split(sep)[1]`
      is `Before(After(s, sep), sep)` */
  function After(s: string, sep: string): (r: string)
    requires Contains(s, sep)
    ensures r == s[|Before(s, sep)| + |sep|..]
  {
    s[IndexOf(s, sep).value + |sep|..]
  }

  /** The Express route's clean-up:
      `if (h.includes('```html')) h = h.split('```html')[1]?.split('```')[0] || h;`
      `if (h.includes('```')) h = h.split('```')[1] || h;`
      An empty piece is falsy and keeps the text it was cut from. */
  function SplitFences(text: string): (r: string)
    ensures !Contains(text, Backticks) ==> r == text
    ensures Contains(text, r)
  {
    var a :=
      if Contains(text, HtmlFence) then
        var piece := Before(Before(After(text, HtmlFence), HtmlFence), Backticks);
        if piece != "" then piece else text
      else text;
    HtmlPieceIsInfix(text);
    SelfIsInfix(text);
    var r :=
      if Contains(a, Backticks) then
        var piece := Before(After(a, Backticks), Backticks);
        if piece != "" then piece else a
      else a;
    PieceIsInfix(a);
    SelfIsInfix(a);
    InfixTransitive(text, a, r);
    NoBackticksNoHtmlFence(text);
    r
  }

  lemma NoBackticksNoHtmlFence(text: string)
    ensures !Contains(text, Backticks) ==> !Contains(text, HtmlFence)
  {
    if Contains(text, HtmlFence) {
      var k :| 0 <= k <= |text| && At(text, k, HtmlFence);
      HtmlFenceStartsWithBackticks(text, k);
    }
  }

  lemma SliceIsInfix(s: string, i: nat, j: nat)
    requires i <= j <= |s|
    ensures Contains(s, s[i..j])
  {
    assert At(s, i, s[i..j]);
  }

  /** The piece the first clean-up step cuts out is an infix of its input */
  lemma HtmlPieceIsInfix(s: string)
    ensures Contains(s, HtmlFence) ==> Contains(s, Before(Before(After(s, HtmlFence), HtmlFence), Backticks))
  {
    if Contains(s, HtmlFence) {
      var i := |Before(s, HtmlFence)| + 7;
      var x := After(s, HtmlFence);
      var y := Before(x, HtmlFence);
      var r := Before(y, Backticks);
      assert x == s[i..];
      assert r == s[i..i + |r|];
      SliceIsInfix(s, i, i + |r|);
    }
  }

  /** The piece the second clean-up step cuts out is an infix of its input */
  lemma PieceIsInfix(s: string)
    ensures Contains(s, Backticks) ==> Contains(s, Before(After(s, Backticks), Backticks))
  {
    if Contains(s, Backticks) {
      var i := |Before(s, Backticks)| + 3;
      var r := Before(After(s, Backticks), Backticks);
      assert r == s[i..i + |r|];
      SliceIsInfix(s, i, i + |r|);
    }
  }

  lemma SelfIsInfix(s: string)
    ensures Contains(s, s)
  {
    assert At(s, 0, s);
  }

  lemma InfixTransitive(a: string, b: string, c: string)
    requires Contains(a, b) && Contains(b, c)
    ensures Contains(a, c)
  {
    var i :| 0 <= i <= |a| && At(a, i, b);
    var j :| 0 <= j <= |b| && At(b, j, c);
    forall d | 0 <= d < |c| ensures a[i + j + d] == c[d] {
      assert b[j + d] == c[d];
    }
    assert At(a, i + j, c);
  }

  /** In pre + "```html" + ..., with no "```html" inside pre, the first
      "```html" is the one written after pre */
  lemma HtmlFenceFirstAt(pre: string, rest: string)
    requires !Contains(pre, HtmlFence)
    ensures IndexOf(pre + HtmlFence + rest, HtmlFence) == Some(|pre|)
  {
    var s := pre + HtmlFence + rest;
    AtPrefix(pre + HtmlFence, rest, |pre|, HtmlFence);
    AtExactEnd(pre, HtmlFence);
    forall k | 0 <= k < |pre| ensures !At(s, k, HtmlFence) {
      if k + 7 <= |pre| {
        AtPrefix(pre, HtmlFence + rest, k, HtmlFence);
        assert s == pre + (HtmlFence + rest);
      } else {
        HtmlFenceNotAcross(pre, rest, k);
      }
    }
    IndexOfIs(s, HtmlFence, |pre|);
  }

  /** An occurrence that ends inside a prefix is one in the prefix */
  lemma AtPrefix(a: string, c: string, k: nat, lit: string)
    requires k + |lit| <= |a|
    ensures At(a + c, k, lit) == At(a, k, lit)
  {
    forall d | 0 <= d < |lit| ensures ((a + c)[k + d] == lit[d]) == (a[k + d] == lit[d]) { }
  }

  lemma AtExactEnd(a: string, lit: string)
    ensures At(a + lit, |a|, lit)
  {
    forall d | 0 <= d < |lit| ensures (a + lit)[|a| + d] == lit[d] { }
  }

  /** No "```html" starts less than seven characters before another one */
  lemma HtmlFenceNotAcross(pre: string, rest: string, k: nat)
    requires k < |pre| < k + 7
    ensures !At(pre + HtmlFence + rest, k, HtmlFence)
  {
    var s := pre + HtmlFence + rest;
    var d := |pre| - k;
    assert s[|pre|] == '`' && s[|pre| + 1] == '`' && s[|pre| + 2] == '`' && s[|pre| + 3] == 'h';
    if d == 1 || d == 2 {
      assert s[k + 3] == '`' != HtmlFence[3];
    } else if d == 3 {
      assert s[k + 3] == '`' != HtmlFence[3];
    } else if d == 4 {
      assert s[k + 4] == '`' != HtmlFence[4];
    } else if d == 5 {
      assert s[k + 5] == '`' != HtmlFence[5];
    } else {
      assert s[k + 6] == '`' != HtmlFence[6];
    }
  }

  /** The first "```" of body + "```" + post is the one after body, when body
      holds none and does not end with a backtick */
  lemma ClosingFenceFirst(body: string, post: string)
    requires |body| > 0 && !Contains(body, Backticks) && body[|body| - 1] != '`'
    ensures IndexOf(body + Backticks + post, Backticks) == Some(|body|)
  {
    var x := body + Backticks + post;
    BackticksAt(x, |body|);
    forall k | 0 <= k < |body| ensures !At(x, k, Backticks) {
      BackticksAt(x, k);
      if k + 3 <= |body| {
        BackticksAt(body, k);
      } else {
        assert x[|body| - 1] != '`';
      }
    }
    IndexOfIs(x, Backticks, |body|);
  }

  /** Cutting body + "```" + post at its first "```html" keeps body whole and,
      when post does not start with a backtick, either stops right after body
      or keeps the closing fence too */
  lemma HtmlCutAfterBody(body: string, post: string)
    requires IndexOf(body + Backticks + post, Backticks) == Some(|body|)
    requires |post| == 0 || post[0] != '`'
    ensures var y := Before(body + Backticks + post, HtmlFence);
      |y| == |body| || |y| >= |body| + 3
  {
    var x := body + Backticks + post;
    var y := Before(x, HtmlFence);
    forall k | |body| < k < |body| + 3 ensures !At(x, k, HtmlFence) {
      if k + 7 <= |x| {
        assert x[k + (|body| + 3 - k)] == post[0] != HtmlFence[|body| + 3 - k];
      }
    }
    if |y| < |x| {
      HtmlFenceStartsWithBackticks(x, |y|);
    }
  }

  /** The Express clean-up returns the body of a fenced block. The body must
      be non-empty and fence-free, must not end with a backtick, and the text
      after the closing fence must not start with one; SplitFencesTrailingBacktick
      and SplitFencesBacktickAfterFence show each of the last two is needed. */
  lemma SplitFencesExtractsBlock(pre: string, body: string, post: string)
    requires !Contains(pre, HtmlFence)
    requires |body| > 0 && !Contains(body, Backticks) && body[|body| - 1] != '`'
    requires |post| == 0 || post[0] != '`'
    ensures SplitFences(pre + HtmlFence + body + Backticks + post) == body
  {
    var text := pre + HtmlFence + body + Backticks + post;
    var x := body + Backticks + post;
    assert text == pre + HtmlFence + x;
    HtmlCutAt(pre, x);
    BodyBeforeFences(body, post);
    SplitFencesFirstPiece(text, body);
  }

  /** The first "```html" of pre + "```html" + x, when pre holds none, leaves x */
  lemma HtmlCutAt(pre: string, x: string)
    requires !Contains(pre, HtmlFence)
    ensures Contains(pre + HtmlFence + x, HtmlFence)
    ensures After(pre + HtmlFence + x, HtmlFence) == x
  {
    var s := pre + HtmlFence + x;
    HtmlFenceFirstAt(pre, x);
    assert Before(s, HtmlFence) == pre;
    assert s[|pre| + 7..] == x;
  }

  /** Both cuts of the block's remainder stop at the end of the body */
  lemma BodyBeforeFences(body: string, post: string)
    requires |body| > 0 && !Contains(body, Backticks) && body[|body| - 1] != '`'
    requires |post| == 0 || post[0] != '`'
    ensures Before(Before(body + Backticks + post, HtmlFence), Backticks) == body
  {
    var x := body + Backticks + post;
    ClosingFenceFirst(body, post);
    HtmlCutAfterBody(body, post);
    assert x[..|body|] == body;
    CutKeepsBody(body, x, Before(x, HtmlFence));
  }

  /** Whichever of the two cuts HtmlCutAfterBody allows, the text before the
      first "```" is body */
  lemma CutKeepsBody(body: string, x: string, y: string)
    requires IndexOf(x, Backticks) == Some(|body|) && x[..|body|] == body
    requires |y| <= |x| && y == x[..|y|]
    requires |y| == |body| || |y| >= |body| + 3
    ensures Before(y, Backticks) == body
  {
    forall k | 0 <= k <= |y| && k + 3 <= |y| ensures At(y, k, Backticks) == At(x, k, Backticks) {
      BackticksAt(x, k);
      BackticksAt(y, k);
    }
    if |y| == |body| {
      assert y == body;
      forall k | 0 <= k <= |y| ensures !At(y, k, Backticks) { }
    } else {
      assert At(y, |body|, Backticks);
      assert y[..|body|] == body;
    }
  }

  /** A block body that ends with a backtick loses it: for b = "x",
      "```htmlx````" cleans to "x", not "x`" */
  lemma SplitFencesTrailingBacktick(b: string)
    requires |b| > 0 && '`' !in b
    ensures SplitFences(HtmlFence + b + "`" + Backticks) == b
  {
    var x := b + ("`" + Backticks);
    assert HtmlFence + b + "`" + Backticks == HtmlFence + x;
    FirstHtmlFenceCut(x);
    FewBackticks(b);
    NoHtmlFenceBeforeEnd(b, "`" + Backticks);
    BackticksAt("`" + Backticks, 0);
    FirstBackticksAfter(b, "`" + Backticks);
    SplitFencesFirstPiece(HtmlFence + x, b);
  }

  /** A backtick right after the closing fence can start a second "```html",
      and the cut keeps the backtick in front of it: for b = "x",
      "```htmlx````html" cleans to "x`" */
  lemma SplitFencesBacktickAfterFence(b: string)
    requires '`' !in b
    ensures SplitFences(HtmlFence + b + "`" + HtmlFence) == b + "`"
  {
    var y := b + "`";
    assert HtmlFence + b + "`" + HtmlFence == HtmlFence + (y + HtmlFence);
    FirstHtmlFenceCut(y + HtmlFence);
    FewBackticks(b);
    NoBackticksNoHtmlFence(y);
    HtmlFenceFirstAt(y, "");
    assert y + HtmlFence + "" == y + HtmlFence;
    assert Before(y + HtmlFence, HtmlFence) == y;
    SplitFencesFirstPiece(HtmlFence + (y + HtmlFence), y);
  }

  /** Text without backticks holds no "```", nor does it after one backtick */
  lemma FewBackticks(b: string)
    requires '`' !in b
    ensures !Contains(b, Backticks) && !Contains(b + "`", Backticks)
  {
    var y := b + "`";
    forall k | 0 <= k <= |b| ensures !At(b, k, Backticks) {
      BackticksAt(b, k);
      if k < |b| {
        assert b[k] in b;
      }
    }
    forall k | 0 <= k <= |y| ensures !At(y, k, Backticks) {
      BackticksAt(y, k);
      if k + 1 < |y| {
        assert y[k] == b[k] && b[k] in b;
      }
    }
  }

  /** A "```html" in b + c would need "```" in b, when c is at most four
      characters long */
  lemma NoHtmlFenceBeforeEnd(b: string, c: string)
    requires !Contains(b, Backticks) && |c| <= 4
    ensures !Contains(b + c, HtmlFence)
  {
    forall k | 0 <= k <= |b + c| ensures !At(b + c, k, HtmlFence) {
      HtmlFenceStartsWithBackticks(b + c, k);
      if k + 7 <= |b + c| {
        AtPrefix(b, c, k, Backticks);
      }
    }
  }

  /** The first "```" of b + rest, for b without backticks and rest opening
      with one, is where rest starts */
  lemma FirstBackticksAfter(b: string, rest: string)
    requires '`' !in b && At(rest, 0, Backticks)
    ensures Before(b + rest, Backticks) == b
  {
    var x := b + rest;
    forall d | 0 <= d < 3 ensures x[|b| + d] == Backticks[d] {
      assert x[|b| + d] == rest[d];
    }
    forall k | 0 <= k < |b| ensures !At(x, k, Backticks) {
      BackticksAt(x, k);
      assert x[k] == b[k] && b[k] in b;
    }
    IndexOfIs(x, Backticks, |b|);
  }

  /** The first step decides the result when it cuts out a non-empty piece
      holding no "```" */
  lemma SplitFencesFirstPiece(text: string, piece: string)
    requires Contains(text, HtmlFence)
    requires Before(Before(After(text, HtmlFence), HtmlFence), Backticks) == piece
    requires piece != "" && !Contains(piece, Backticks)
    ensures SplitFences(text) == piece
  {
  }

  /** A text that opens with "```html" is cut right after it */
  lemma FirstHtmlFenceCut(rest: string)
    ensures Contains(HtmlFence + rest, HtmlFence)
    ensures After(HtmlFence + rest, HtmlFence) == rest
  {
    assert HtmlFence + rest == "" + HtmlFence + rest;
    HtmlFenceFirstAt("", rest);
  }
}
