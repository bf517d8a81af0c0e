/** How the Netlify functions turn a thrown error into an HTTP failure. Each
    classifier tests the error message for fixed substrings, case-sensitively
    and in a fixed priority order, and differs from the others in the words it
    looks for and the status it answers with. */
module Classify {
  import opened Js
  import opened Async

  /** The failure fields of a JSON error envelope */
  datatype Failure = Failure(status: nat, error: string, details: string, errorType: string)

  /** Some word of `words` occurs in the message */
  predicate Mentions(message: string, words: seq<string>) {
    exists w :: w in words && Contains(message, w)
  }

  const TimeoutWords: seq<string> := ["timed out", "timeout"]
  const RateWords: seq<string> := ["rate limit", "quota"]
  const NetworkWords: seq<string> := ["network", "ENOTFOUND"]

  /** `error.message || fallback` */
  function MessageOr(e: JsError, fallback: string): (r: string)
    ensures |r| > 0 <== |fallback| > 0
    ensures r == e.message || r == fallback
    ensures e.message != "" ==> r == e.message
  {
    if e.message != "" then e.message else fallback
  }

  /** `error.name || fallback` */
  function NameOr(e: JsError, fallback: string): (r: string)
    ensures r == e.name || r == fallback
    ensures e.name != "" ==> r == e.name
  {
    if e.name != "" then e.name else fallback
  }

  const BusyDetails: string := "The AI service is currently busy. Please try again in a few moments."
  const SlowDetails: string := "The AI service is taking too long. Please try with a shorter, more specific prompt."

  /** The one-shot function's answer when the model call fails after its
      retries: a timeout first, then rate limiting, then a generic 502 that
      passes the error's own message and name on */
  function ClassifyGeneration(e: JsError): (f: Failure)
    ensures f.status == 429 || f.status == 502
    ensures f.status == 429 <==> !Contains(e.message, "timed out") && Mentions(e.message, RateWords)
    ensures Contains(e.message, "timed out") ==> f == Failure(502, "Request timeout", SlowDetails, "TimeoutError")
    ensures f.status == 429 ==> f == Failure(429, "Rate limit exceeded", BusyDetails, "RateLimitError")
    ensures !Contains(e.message, "timed out") && !Mentions(e.message, RateWords) ==>
      f.error == "AI generation failed"
      && f.details == MessageOr(e, "Failed to call Gemini API")
      && f.errorType == NameOr(e, "ApiError")
  {
    if Contains(e.message, "timed out") then
      Failure(502, "Request timeout", SlowDetails, "TimeoutError")
    else if Contains(e.message, "rate limit") || Contains(e.message, "quota") then
      Failure(429, "Rate limit exceeded", BusyDetails, "RateLimitError")
    else
      Failure(502, "AI generation failed", MessageOr(e, "Failed to call Gemini API"), NameOr(e, "ApiError"))
  }

  /** The one-shot function's answer when the response cannot be read: always
      502; a timeout is reported with a fixed text, anything else with its
      own message */
  function ClassifyResponse(e: JsError): (f: Failure)
    ensures f.status == 502 && f.error == "Failed to process AI response"
    ensures f.errorType == "TimeoutError" <==> Contains(e.message, "timed out")
    ensures f.errorType == "ResponseError" <==> !Contains(e.message, "timed out")
    ensures !Contains(e.message, "timed out") ==> f.details == e.message
  {
    if Contains(e.message, "timed out") then
      Failure(502, "Failed to process AI response", "Response processing timed out. Please try again.", "TimeoutError")
    else
      Failure(502, "Failed to process AI response", e.message, "ResponseError")
  }

  /** The one-shot function's outer catch: a timeout in either spelling first,
      then rate limiting, then network trouble, and otherwise 500 */
  function ClassifyUnexpected(e: JsError): (f: Failure)
    ensures f.error == "Failed to generate website"
    ensures f.details == MessageOr(e, "Unknown error occurred")
    ensures f.status == 500 <==> !Mentions(e.message, TimeoutWords + RateWords + NetworkWords)
    ensures Mentions(e.message, TimeoutWords) ==> f.status == 502 && f.errorType == "TimeoutError"
    ensures !Mentions(e.message, TimeoutWords) && Mentions(e.message, RateWords) ==>
      f.status == 429 && f.errorType == "RateLimitError"
    ensures !Mentions(e.message, TimeoutWords + RateWords) && Mentions(e.message, NetworkWords) ==>
      f.status == 502 && f.errorType == "NetworkError"
    ensures f.status == 500 ==> f.errorType == NameOr(e, "UnknownError")
  {
    MentionsFacts(e.message);
    var (status, errorType) :=
      if Contains(e.message, "timed out") || Contains(e.message, "timeout") then (502, "TimeoutError")
      else if Contains(e.message, "rate limit") || Contains(e.message, "quota") then (429, "RateLimitError")
      else if Contains(e.message, "network") || Contains(e.message, "ENOTFOUND") then (502, "NetworkError")
      else (500, NameOr(e, "UnknownError"));
    Failure(status, "Failed to generate website", MessageOr(e, "Unknown error occurred"), errorType)
  }

  /** The outer catch of each step function: 502 for a timeout in either
      spelling, 500 for everything else; `errorText` names the step */
  function ClassifyStage(e: JsError, errorText: string): (f: Failure)
    ensures f.error == errorText
    ensures f.details == MessageOr(e, "Unknown error occurred")
    ensures f.status == 502 <==> Mentions(e.message, TimeoutWords)
    ensures f.status == 500 <==> !Mentions(e.message, TimeoutWords)
    ensures Mentions(e.message, TimeoutWords) ==> f.errorType == "TimeoutError"
    ensures !Mentions(e.message, TimeoutWords) ==> f.errorType == NameOr(e, "UnknownError")
  {
    MentionsFacts(e.message);
    if Contains(e.message, "timed out") || Contains(e.message, "timeout") then
      Failure(502, errorText, MessageOr(e, "Unknown error occurred"), "TimeoutError")
    else
      Failure(500, errorText, MessageOr(e, "Unknown error occurred"), NameOr(e, "UnknownError"))
  }

  /** Mentions over the fixed word lists, spelled out */
  lemma MentionsFacts(m: string)
    ensures Mentions(m, TimeoutWords) <==> Contains(m, "timed out") || Contains(m, "timeout")
    ensures Mentions(m, RateWords) <==> Contains(m, "rate limit") || Contains(m, "quota")
    ensures Mentions(m, TimeoutWords + RateWords + NetworkWords) <==>
      Mentions(m, TimeoutWords) || Mentions(m, RateWords) || Contains(m, "network") || Contains(m, "ENOTFOUND")
    ensures Mentions(m, NetworkWords) <==> Contains(m, "network") || Contains(m, "ENOTFOUND")
    ensures Mentions(m, TimeoutWords + RateWords) <==> Mentions(m, TimeoutWords) || Mentions(m, RateWords)
  {
    assert TimeoutWords + RateWords + NetworkWords == ["timed out", "timeout", "rate limit", "quota", "network", "ENOTFOUND"];
    assert TimeoutWords + RateWords == ["timed out", "timeout", "rate limit", "quota"];
  }

  /** Every rejection a `withTimeout` timer produces is classified as a
      timeout by every classifier, whatever the deadline */
  lemma TimerRejectionIsTimeout(ms: nat, errorText: string)
    ensures ClassifyGeneration(TimeoutError(ms)) == Failure(502, "Request timeout", SlowDetails, "TimeoutError")
    ensures ClassifyResponse(TimeoutError(ms)).errorType == "TimeoutError"
    ensures ClassifyUnexpected(TimeoutError(ms)).status == 502
    ensures ClassifyUnexpected(TimeoutError(ms)).errorType == "TimeoutError"
    ensures ClassifyStage(TimeoutError(ms), errorText).status == 502
    ensures ClassifyStage(TimeoutError(ms), errorText).errorType == "TimeoutError"
  {
    TimeoutMessageSaysTimedOut(ms);
    MentionsFacts(TimeoutMessage(ms));
  }

  /** A failed call raced against a deadline is reported as a timeout
      exactly when the call had not settled before the deadline, unless its
      own error already said it timed out */
  lemma GuardedFailureClassification<T>(p: Timed<T>, ms: nat)
    requires WithTimeout(p, ms).outcome.Rejected?
    ensures p.at >= ms ==> ClassifyGeneration(WithTimeout(p, ms).outcome.error).errorType == "TimeoutError"
    ensures p.at < ms ==> ClassifyGeneration(WithTimeout(p, ms).outcome.error) == ClassifyGeneration(p.outcome.error)
  {
    if p.at >= ms {
      TimerRejectionIsTimeout(ms, "");
    }
  }

  /** Matching is case-sensitive: "Timed Out" is not a timeout to any
      classifier */
  lemma CaseSensitive(name: string)
    ensures ClassifyGeneration(JsError(name, "Timed Out")).status == 502
    ensures ClassifyGeneration(JsError(name, "Timed Out")).errorType == NameOr(JsError(name, "Timed Out"), "ApiError")
    ensures ClassifyStage(JsError(name, "Timed Out"), "").status == 500
    ensures ClassifyResponse(JsError(name, "Timed Out")).errorType == "ResponseError"
    ensures ClassifyUnexpected(JsError(name, "Timed Out")).status == 500
  {
    var m := "Timed Out";
    NoFirstLetter(m, "timed out");
    NoFirstLetter(m, "timeout");
    NoFirstLetter(m, "rate limit");
    NoFirstLetter(m, "quota");
    NoFirstLetter(m, "network");
    NoFirstLetter(m, "ENOTFOUND");
    MentionsFacts(m);
  }

  /** A needle cannot occur where the text does not hold its first letter */
  lemma NoFirstLetter(m: string, w: string)
    requires |w| > 0
    requires forall k :: 0 <= k && k + |w| <= |m| ==> m[k] != w[0]
    ensures !Contains(m, w)
  {
    forall k | 0 <= k <= |m| ensures !At(m, k, w) {
      if k + |w| <= |m| {
        assert m[k + 0] != w[0];
      }
    }
  }

  /** A needle cannot occur where the text does not hold its first three
      letters */
  lemma NoThreeLetterHead(m: string, w: string)
    requires |w| >= 3
    requires forall k :: 0 <= k && k + |w| <= |m| ==> m[k] != w[0] || m[k + 1] != w[1] || m[k + 2] != w[2]
    ensures !Contains(m, w)
  {
    forall k | 0 <= k <= |m| ensures !At(m, k, w) {
      if k + |w| <= |m| {
        assert m[k + 0] != w[0] || m[k + 1] != w[1] || m[k + 2] != w[2];
      }
    }
  }

  /** A text without some prefix of a needle cannot contain the needle */
  lemma HeadAbsent(m: string, h: string, w: string)
    requires |h| <= |w| && w[..|h|] == h && !Contains(m, h)
    ensures !Contains(m, w)
  {
    forall k | 0 <= k <= |m| ensures !At(m, k, w) {
      PrefixAt(m, k, h, w);
    }
  }

  lemma PrefixAt(m: string, k: nat, h: string, w: string)
    requires |h| <= |w| && w[..|h|] == h
    ensures At(m, k, w) ==> At(m, k, h)
  {
    if At(m, k, w) {
      forall d | 0 <= d < |h| ensures m[k + d] == h[d] {
        assert h[d] == w[..|h|][d];
      }
    }
  }

  /** The outer catch and the generation classifier agree on how they
      report a message that says it timed out */
  lemma TimedOutAgrees(e: JsError, errorText: string)
    requires Contains(e.message, "timed out")
    ensures ClassifyGeneration(e).status == ClassifyUnexpected(e).status == ClassifyStage(e, errorText).status == 502
    ensures ClassifyGeneration(e).errorType == ClassifyUnexpected(e).errorType == ClassifyStage(e, errorText).errorType == "TimeoutError"
  {
    MentionsFacts(e.message);
  }

  /** Only the outer catch knows the word "timeout": a generation failure
      that says "timeout" without "timed out" is a generic 502 there, but a
      timeout to the outer catch and the step functions */
  lemma TimeoutSpellingDiffers(e: JsError)
    requires Contains(e.message, "timeout") && !Contains(e.message, "timed out")
    requires !Mentions(e.message, RateWords)
    ensures ClassifyGeneration(e).errorType == NameOr(e, "ApiError")
    ensures ClassifyUnexpected(e).errorType == "TimeoutError"
    ensures ClassifyStage(e, "").errorType == "TimeoutError"
  {
    MentionsFacts(e.message);
  }
}
