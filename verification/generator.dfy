/** The generator page: what `handleGenerate` does with the prompt and the
    API's answer, the toast it shows for each failure, and the file name
    `handleExport` gives a downloaded page. */
module Generator {
  import opened Js
  import opened Handlers

  datatype Toast = Toast(title: string, description: string, destructive: bool)

  /** What a `catch` receives: an `Error`, possibly carrying `status` and
      `errorType` properties (None when absent or not a number / string), or
      any other thrown value */
  datatype Thrown = ErrorObject(message: string, status: Option<int>, errorType: Option<string>) | NonError

  /** How the API call ends: with a parsed answer (its `success`, its `data`
      and its `error`, empty when absent), or by throwing */
  datatype ApiOutcome = Answered(success: bool, data: Option<SiteData>, error: string) | Threw(thrown: Thrown)

  /** The page state `handleGenerate` touches */
  datatype Page = Page(isGenerating: bool, site: Option<SiteData>)

  /** One run of `handleGenerate`: the page afterwards, the toast shown, and
      whether the API was called */
  datatype Run = Run(page: Page, toast: Toast, called: bool)

  const EmptyPromptToast: Toast := Toast("Error", "Please enter a description for your website", true)
  const SuccessToast: Toast := Toast("Success!", "Your website has been generated successfully!", false)
  const DefaultFailureTitle: string := "Generation Failed"
  const DefaultFailureDescription: string := "Failed to generate website. Please try again."
  const ShorterPrompt: string := "The request took too long. Try using a shorter, more specific prompt."
  const Unavailable: string := "Server is temporarily unavailable. Please try again in a moment."
  const WaitAMoment: string := "Please wait a moment before trying again."
  const HighDemand: string := "The AI service is currently experiencing high demand. Please wait 1-2 minutes and try again with a shorter prompt."
  const InternalError: string := "Internal server error. Please try again later."

  /** The failure toast of the catch block */
  function ToastFor(e: Thrown): (t: Toast)
    ensures t.destructive
    ensures e.NonError? ==> t == Toast(DefaultFailureTitle, DefaultFailureDescription, true)
    ensures e.ErrorObject? && e.status == Some(502) ==>
      (t.title == "Request Timeout"
       && (t.description == ShorterPrompt <==> e.errorType == Some("TimeoutError"))
       && (t.description == Unavailable <==> e.errorType != Some("TimeoutError")))
    ensures e.ErrorObject? && e.status == Some(429) ==> t == Toast("Too Many Requests", WaitAMoment, true)
    ensures e.ErrorObject? && e.status == Some(500) ==>
      (t.title == "AI Service Overloaded"
       && (t.description == HighDemand <==> Contains(e.message, "overloaded"))
       && (t.description == InternalError <==> !Contains(e.message, "overloaded")))
    ensures e.ErrorObject? && e.status !in {Some(502), Some(429), Some(500)} ==>
      t == Toast(DefaultFailureTitle, e.message, true)
  {
    match e
    case NonError => Toast(DefaultFailureTitle, DefaultFailureDescription, true)
    case ErrorObject(message, status, errorType) =>
      if status == Some(502) then
        Toast("Request Timeout", if errorType == Some("TimeoutError") then ShorterPrompt else Unavailable, true)
      else if status == Some(429) then Toast("Too Many Requests", WaitAMoment, true)
      else if status == Some(500) then
        Toast("AI Service Overloaded", if Contains(message, "overloaded") then HighDemand else InternalError, true)
      else Toast(DefaultFailureTitle, message, true)
  }

  /** `handleGenerate`: a blank prompt only shows a toast; otherwise the page
      is put into its generating state, the API is called, and the `finally`
      block always ends the generating state */
  function HandleGenerate(prompt: string, page: Page, api: ApiOutcome): (r: Run)
    ensures |Trim(prompt)| == 0 ==> r == Run(page, EmptyPromptToast, false)
    ensures |Trim(prompt)| > 0 ==> r.called && !r.page.isGenerating
    ensures r.called ==> (r.page.site.Some? <==> api.Answered? && api.success && api.data.Some?)
    ensures r.called && r.page.site.Some? ==> r.page.site == api.data && r.toast == SuccessToast
    ensures r.called && r.toast != SuccessToast ==> r.page.site.None? && r.toast.destructive
    ensures |Trim(prompt)| > 0 && api.Threw? ==> r.toast == ToastFor(api.thrown)
    ensures |Trim(prompt)| > 0 && api.Answered? && !(api.success && api.data.Some?) ==>
      r.toast == ToastFor(ErrorObject(if api.error != "" then api.error else "Failed to generate website", None, None))
  {
    if |Trim(prompt)| == 0 then Run(page, EmptyPromptToast, false)
    else
      match api
      case Answered(success, data, error) =>
        if success && data.Some? then Run(Page(false, data), SuccessToast, true)
        else
          var thrown := ErrorObject(if error != "" then error else "Failed to generate website", None, None);
          Run(Page(false, None), ToastFor(thrown), true)
      case Threw(e) => Run(Page(false, None), ToastFor(e), true)
  }

  /** An `Error` without `status` (what a plain `new Error` is, including the
      page's own rethrow of an unsuccessful answer) reaches the last branch:
      the toast is 'Generation Failed' with the error text itself */
  lemma ClientErrorsShowTheirMessage(prompt: string, page: Page, message: string)
    requires |Trim(prompt)| > 0
    ensures HandleGenerate(prompt, page, Threw(ErrorObject(message, None, None))).toast
      == Toast(DefaultFailureTitle, message, true)
    ensures HandleGenerate(prompt, page, Answered(false, None, message)).toast
      == Toast(DefaultFailureTitle, if message != "" then message else "Failed to generate website", true)
  {
  }

  /** A blank prompt changes nothing on the page and calls nothing */
  lemma BlankPromptNoCall(prompt: string, page: Page, api: ApiOutcome)
    requires AllSpace(prompt)
    ensures HandleGenerate(prompt, page, api).page == page
    ensures !HandleGenerate(prompt, page, api).called
    ensures HandleGenerate(prompt, page, api).toast.title == "Error"
  {
    BlankTrimsToEmpty(prompt);
  }

  predicate IsAsciiAlnum(c: char) {
    'a' <= c <= 'z' || 'A' <= c <= 'Z' || '0' <= c <= '9'
  }

  /** Characters a sanitised stem is made of */
  predicate IsStemChar(c: char) {
    'a' <= c <= 'z' || '0' <= c <= '9' || c == '_'
  }

  /** The UTF-16 code units of one character */
  function Units(c: char): nat {
    if c as int > 0xFFFF then 2 else 1
  }

  /** The length of a string in UTF-16 code units, JavaScript's `length` */
  function Utf16Length(s: string): nat {
    if |s| == 0 then 0 else Utf16Length(s[..|s| - 1]) + Units(s[|s| - 1])
  }

  /** `s.replace(/[^a-z0-9]/gi, '_')`: without the `u` flag the class is
      tested on each UTF-16 code unit, so a character outside the Basic
      Multilingual Plane (a surrogate pair) becomes two underscores */
  function ReplaceNonAlnum(s: string): (r: string)
    ensures Utf16Length(r) == Utf16Length(s) && |r| == Utf16Length(s)
    ensures forall k :: 0 <= k < |r| ==> IsAsciiAlnum(r[k]) || r[k] == '_'
  {
    if |s| == 0 then []
    else
      var c := s[|s| - 1];
      var last := if IsAsciiAlnum(c) then [c] else if c as int > 0xFFFF then "__" else "_";
      var r := ReplaceNonAlnum(s[..|s| - 1]) + last;
      Utf16Append(ReplaceNonAlnum(s[..|s| - 1]), last);
      r
  }

  lemma {:induction false} Utf16Append(a: string, b: string)
    requires forall k :: 0 <= k < |b| ==> b[k] as int <= 0xFFFF
    ensures Utf16Length(a + b) == Utf16Length(a) + |b|
    decreases |b|
  {
    if |b| > 0 {
      assert (a + b)[..|a + b| - 1] == a + b[..|b| - 1];
      assert (a + b)[|a + b| - 1] == b[|b| - 1];
      assert Units(b[|b| - 1]) == 1;
      Utf16Append(a, b[..|b| - 1]);
      assert Utf16Length(a + b) == Utf16Length(a + b[..|b| - 1]) + 1;
    } else {
      assert a + b == a;
    }
  }

  /** `toLowerCase()` on a string of ASCII characters */
  function LowerAll(s: string): (r: string)
    ensures |r| == |s|
    ensures forall k :: 0 <= k < |r| ==> r[k] == Lower(s[k])
  {
    if |s| == 0 then [] else LowerAll(s[..|s| - 1]) + [Lower(s[|s| - 1])]
  }

  /** `title.replace(/[^a-z0-9]/gi, '_').toLowerCase()` */
  function Stem(title: string): (r: string)
    ensures |r| == Utf16Length(title)
    ensures forall k :: 0 <= k < |r| ==> IsStemChar(r[k])
  {
    LowerAll(ReplaceNonAlnum(title))
  }

  /** The download name of an exported page */
  function ExportFilename(title: string): (r: string)
    ensures |r| == Utf16Length(title) + 5
    ensures r[|r| - 5..] == ".html" && IsStemName(r[..|r| - 5])
  {
    assert (Stem(title) + ".html")[..|Stem(title)|] == Stem(title);
    Stem(title) + ".html"
  }

  predicate IsStemName(s: string) {
    forall k :: 0 <= k < |s| ==> IsStemChar(s[k])
  }

  /** Sanitising a sanitised stem changes nothing */
  lemma StemIdempotent(s: string)
    requires IsStemName(s)
    ensures Stem(s) == s
  {
    ReplaceNonAlnumStem(s);
  }

  lemma {:induction false} ReplaceNonAlnumStem(s: string)
    requires IsStemName(s)
    ensures ReplaceNonAlnum(s) == s
    decreases |s|
  {
    if |s| > 0 {
      ReplaceNonAlnumStem(s[..|s| - 1]);
      assert s == s[..|s| - 1] + [s[|s| - 1]];
    }
  }

  /** For a title inside the Basic Multilingual Plane, the stem keeps every
      ASCII letter and digit in its place, lower-cased, and puts '_' in
      place of everything else */
  lemma {:induction false} StemPositions(title: string)
    requires forall k :: 0 <= k < |title| ==> title[k] as int <= 0xFFFF
    ensures |Stem(title)| == |title|
    ensures forall k :: 0 <= k < |title| ==>
      Stem(title)[k] == if IsAsciiAlnum(title[k]) then Lower(title[k]) else '_'
    decreases |title|
  {
    BmpLength(title);
    ReplaceNonAlnumPositions(title);
  }

  lemma {:induction false} BmpLength(s: string)
    requires forall k :: 0 <= k < |s| ==> s[k] as int <= 0xFFFF
    ensures Utf16Length(s) == |s|
  {
    Utf16Append([], s);
    assert [] + s == s;
  }

  lemma {:induction false} ReplaceNonAlnumPositions(s: string)
    requires forall k :: 0 <= k < |s| ==> s[k] as int <= 0xFFFF
    ensures |ReplaceNonAlnum(s)| == |s|
    ensures forall k :: 0 <= k < |s| ==>
      ReplaceNonAlnum(s)[k] == if IsAsciiAlnum(s[k]) then s[k] else '_'
    decreases |s|
  {
    BmpLength(s);
    if |s| > 0 {
      var p := s[..|s| - 1];
      ReplaceNonAlnumPositions(p);
      forall k | 0 <= k < |s| ensures ReplaceNonAlnum(s)[k] == if IsAsciiAlnum(s[k]) then s[k] else '_' {
        if k < |s| - 1 {
          assert s[k] == p[k];
        }
      }
    }
  }
}
