/** The four Netlify functions: the one-shot website generator and the three
    steps (HTML, styles, functionality) of the staged generator. Each answers
    an event by passing it through a fixed sequence of gates and, once every
    gate is passed, calling the model and post-processing its text.

    The model is a collaborator: `calls[i]` is the promise the (i+1)-th
    `generateContent` call returns, its completion time and either the
    response (whose `text()` may itself throw) or the error it rejects with.
    `JSON.parse` is a collaborator too, passed as `parse`. */
module Handlers {
  import opened Js
  import opened Async
  import opened Classify
  import opened Cleanup
  import opened Regex
  import opened Metadata

  datatype Event = Event(httpMethod: string, body: Option<string>)

  /** A parsed body at the top level. Only an object has fields; reading a
      field of any other non-null value gives undefined, and reading one of
      null throws. */
  datatype Json = JsonNull | JsonObject(fields: map<string, Value>) | JsonOther

  datatype Parsed = Parsed(json: Json) | ParseError(message: string)

  /** `parsedBody.name` for a non-null body */
  function Field(j: Json, name: string): Value {
    match j
    case JsonObject(f) => if name in f then f[name] else Undefined
    case _ => Undefined
  }

  /** The process environment and the SDK's two constructors: the API key
      (empty when unset) and the error, if any, that creating the client or
      the model throws */
  datatype Env = Env(apiKey: string, initError: Option<JsError>, modelError: Option<JsError>)

  /** A resolved `generateContent` result: what `response.text()` returns or
      throws */
  datatype Generated = Generated(text: Settled<string>)

  datatype SiteData = SiteData(html: string, title: Value, description: Option<Value>, prompt: Value, isComplete: bool)

  /** A JSON response body; absent fields are None (`isComplete` absent is
      false) */
  datatype Envelope = Envelope(
    success: Option<bool>, step: Option<string>, error: Option<string>,
    details: Option<string>, errorType: Option<string>, data: Option<SiteData>)

  /** An HTTP answer: the status, the body (None for the empty preflight
      body) and the number of `generateContent` calls made to produce it */
  datatype Response = Response(statusCode: nat, body: Option<Envelope>, calls: nat)

  datatype Stage = Website | Html | Styles | Functionality

  /** `step` in the staged envelopes */
  function StepName(stage: Stage): Option<string> {
    match stage
    case Website => None
    case Html => Some("html")
    case Styles => Some("styles")
    case Functionality => Some("functionality")
  }

  /** `error` in a step's failure envelope */
  function StepError(stage: Stage): string {
    match stage
    case Website => "Failed to generate website"
    case Html => "Failed to generate HTML structure"
    case Styles => "Failed to generate CSS styling"
    case Functionality => "Failed to generate JavaScript functionality"
  }

  function Fail(step: Option<string>, error: string, details: Option<string>, errorType: Option<string>): Envelope {
    Envelope(Some(false), step, Some(error), details, errorType, None)
  }

  function Succeed(step: Option<string>, data: SiteData): Envelope {
    Envelope(Some(true), step, None, None, None, Some(data))
  }

  const KeyDetails: string := "Please set the GEMINI_API_KEY environment variable in Netlify dashboard"
  const PromptDetails: string := "Prompt is required and must be a non-empty string"

  /** What reading `parsedBody.prompt` of a null body throws */
  const NullBodyMessage: string := "Cannot read properties of null (reading 'prompt')"

  /** What `prompt.substring` throws when the prompt is not a string */
  const SubstringError: JsError := JsError("TypeError", "prompt.substring is not a function")

  /** `event.body || '{}'` */
  function BodyText(body: Option<string>): (t: string)
    ensures body.Some? && body.value != "" ==> t == body.value
    ensures body.None? || body.value == "" ==> t == "{}"
  {
    match body
    case Some(s) => if s != "" then s else "{}"
    case None => "{}"
  }

  /** `!prompt || typeof prompt !== 'string' || prompt.trim().length === 0`,
      negated: the one-shot and HTML functions want a string with a
      non-blank character */
  predicate PromptUsable(p: Value) {
    p.Str? && |Trim(p.s)| > 0
  }

  /** The field test of each function: a usable prompt for the first two,
      a truthy prompt and html for the last two */
  predicate FieldsAccepted(stage: Stage, j: Json) {
    match stage
    case Website => PromptUsable(Field(j, "prompt"))
    case Html => PromptUsable(Field(j, "prompt"))
    case _ => Truthy(Field(j, "prompt")) && Truthy(Field(j, "html"))
  }

  /** The outcome of the gates: go on with the parsed body, or answer now */
  datatype Gate = Proceed(json: Json) | Reject(statusCode: nat, body: Option<Envelope>)

  /** The gates every function passes a request through, in order: the
      preflight, the method, the API key, the body's syntax, the fields */
  function Gatekeep(stage: Stage, ev: Event, env: Env, parse: string -> Parsed): (g: Gate)
    ensures ev.httpMethod == "OPTIONS" ==> g == Reject(200, None)
    ensures ev.httpMethod != "OPTIONS" && ev.httpMethod != "POST" ==>
      g == Reject(405, Some(Envelope(None, None, Some("Method not allowed"), None, None, None)))
    ensures ev.httpMethod == "POST" && env.apiKey == "" ==>
      g.Reject? && g.statusCode == 500 && g.body.Some? && g.body.value.error == Some("Gemini API key not configured")
    ensures ev.httpMethod == "POST" && env.apiKey != "" && parse(BodyText(ev.body)).ParseError? ==>
      g.Reject? && g.statusCode == 400 && g.body.Some? && g.body.value.error == Some("Invalid JSON in request body")
    ensures (&& ev.httpMethod == "POST" && env.apiKey != "" && parse(BodyText(ev.body)).Parsed?
             && (parse(BodyText(ev.body)).json == JsonNull || !FieldsAccepted(stage, parse(BodyText(ev.body)).json))) ==>
      g.Reject? && g.statusCode == 400
    ensures g.Proceed? <==>
      && ev.httpMethod == "POST" && env.apiKey != ""
      && parse(BodyText(ev.body)).Parsed? && parse(BodyText(ev.body)).json != JsonNull
      && FieldsAccepted(stage, parse(BodyText(ev.body)).json)
    ensures g.Proceed? ==> g.json == parse(BodyText(ev.body)).json
    ensures g.Reject? ==> g.statusCode in {200, 400, 405, 500}
  {
    if ev.httpMethod == "OPTIONS" then Reject(200, None)
    else if ev.httpMethod != "POST" then
      Reject(405, Some(Envelope(None, None, Some("Method not allowed"), None, None, None)))
    else if env.apiKey == "" then
      Reject(500, Some(Fail(None, "Gemini API key not configured", if stage == Website then Some(KeyDetails) else None, None)))
    else
      match parse(BodyText(ev.body))
      case ParseError(m) =>
        Reject(400, Some(Fail(None, "Invalid JSON in request body", if stage == Website then Some(m) else None, None)))
      case Parsed(JsonNull) =>
        Reject(400, Some(Fail(None, "Invalid JSON in request body", if stage == Website then Some(NullBodyMessage) else None, None)))
      case Parsed(j) =>
        if FieldsAccepted(stage, j) then Proceed(j)
        else match stage
          case Website => Reject(400, Some(Fail(None, "Invalid prompt", Some(PromptDetails), None)))
          case Html => Reject(400, Some(Fail(None, "Invalid prompt - must be a non-empty string", None, None)))
          case _ => Reject(400, Some(Fail(None, "Both prompt and HTML content are required", None, None)))
  }

  /** A step function's outer catch as a response */
  function StageFailure(stage: Stage, e: JsError, calls: nat): (r: Response)
    ensures r.calls == calls && r.body.Some? && r.body.value.success == Some(false)
    ensures r.body.value.step == StepName(stage) && r.body.value.error == Some(StepError(stage))
    ensures r.statusCode == 502 <==> Mentions(e.message, TimeoutWords)
    ensures r.statusCode == 500 <==> !Mentions(e.message, TimeoutWords)
  {
    var f := ClassifyStage(e, StepError(stage));
    Response(f.status, Some(Fail(StepName(stage), f.error, Some(f.details), Some(f.errorType))), calls)
  }

  /** The post-processing every function applies to the model's text */
  predicate CleanPage(data: SiteData) {
    !Contains(data.html, Backticks) && IsTrimmed(data.html)
  }

  /** The one-shot function from the prompt check on: construct the client
      and the model, make one call raced against 30 s through
      `retryOperation(.., 1, 1000)`, guard the response for 10 s, read the
      text, clean it and extract title and description */
  function GenerateWebsite(prompt: string, env: Env, calls: seq<Timed<Generated>>): (r: Response)
    requires |calls| >= 1
    ensures r.calls <= 1
    ensures r.calls == 0 <==> env.initError.Some? || env.modelError.Some?
    ensures r.statusCode in {200, 429, 500, 502}
    ensures r.statusCode == 200 ==> r.body.Some? && r.body.value.success == Some(true) && r.body.value.data.Some?
    ensures r.statusCode == 200 ==> r.body.value.step.None? && CleanPage(r.body.value.data.value)
    ensures r.statusCode == 200 ==> r.body.value.data.value.prompt == Str(prompt)
    ensures r.statusCode == 200 ==> r.body.value.data.value.description.Some?
    ensures r.statusCode != 200 ==> r.body.Some? && r.body.value.success == Some(false)
  {
    if env.initError.Some? then
      Response(500, Some(Fail(None, "Failed to initialize AI service", Some(env.initError.value.message), None)), 0)
    else if env.modelError.Some? then
      Response(500, Some(Fail(None, "Failed to initialize AI model", Some(env.modelError.value.message), None)), 0)
    else
      var run := Retry([WithTimeout(calls[0], 30000)], 1, Linear(1000.0));
      match run.result.value
      case Rejected(e) =>
        var f := ClassifyGeneration(e);
        Response(f.status, Some(Fail(None, f.error, Some(f.details), Some(f.errorType))), run.calls)
      case Resolved(g) =>
        // `result.response` is a plain object, so its 10 s race is won at once
        match WithTimeout(Timed(0, Resolved(g)), 10000).outcome
        case Rejected(e) =>
          var f := ClassifyResponse(e);
          Response(f.status, Some(Fail(None, f.error, Some(f.details), Some(f.errorType))), run.calls)
        case Resolved(g') =>
          match g'.text
          case Rejected(e) =>
            Response(500, Some(Fail(None, "Failed to extract generated content", Some(e.message), None)), run.calls)
          case Resolved(text) =>
            var html := StripFences(text);
            var data := SiteData(html, Str(TitleOrDefault(html)), Some(Str(DescriptionOr(html, WebsiteDescriptionDefault))), Str(prompt), false);
            Response(200, Some(Succeed(None, data)), run.calls)
  }

  /** The HTML step from the prompt check on: up to two calls, each raced
      against 15 s, through `retryWithDelay(.., 2)`; then the text, cleaned,
      and its title */
  function GenerateHtml(prompt: string, env: Env, calls: seq<Timed<Generated>>): (r: Response)
    requires |calls| >= 2
    ensures r.calls <= 2
    ensures r.calls == 0 <==> env.initError.Some? || env.modelError.Some?
    ensures r.statusCode in {200, 500, 502}
    ensures r.statusCode == 200 ==> r.body.Some? && r.body.value.success == Some(true) && r.body.value.data.Some?
    ensures r.statusCode == 200 ==> r.body.value.step == Some("html") && CleanPage(r.body.value.data.value)
    ensures r.statusCode == 200 ==> r.body.value.data.value.description.None?
    ensures r.statusCode != 200 ==> r.body.Some? && r.body.value.step == Some("html")
  {
    if env.initError.Some? then StageFailure(Html, env.initError.value, 0)
    else if env.modelError.Some? then StageFailure(Html, env.modelError.value, 0)
    else
      var run := Retry([WithTimeout(calls[0], 15000), WithTimeout(calls[1], 15000)], 2, Geometric(1000.0));
      match run.result.value
      case Rejected(e) => StageFailure(Html, e, run.calls)
      case Resolved(g) =>
        match g.text
        case Rejected(e) => StageFailure(Html, e, run.calls)
        case Resolved(text) =>
          var html := StripFences(text);
          Response(200, Some(Succeed(Some("html"), SiteData(html, Str(TitleOrDefault(html)), None, Str(prompt), false))), run.calls)
  }

  /** The styling and functionality steps from the field check on: the
      prompt is cut with `substring` (which throws for a non-string), then a
      single call raced against `deadline`, then the text, cleaned, with
      the step's title and description fallbacks */
  function GenerateStep(stage: Stage, j: Json, env: Env, calls: seq<Timed<Generated>>): (r: Response)
    requires stage == Styles || stage == Functionality
    requires |calls| >= 1
    ensures r.calls <= 1
    ensures r.calls == 0 <==> !Field(j, "prompt").Str? || env.initError.Some? || env.modelError.Some?
    ensures r.statusCode in {200, 500, 502}
    ensures r.statusCode == 200 ==> r.body.Some? && r.body.value.success == Some(true) && r.body.value.data.Some?
    ensures r.statusCode == 200 ==> r.body.value.step == StepName(stage) && CleanPage(r.body.value.data.value)
    ensures r.statusCode == 200 ==> r.body.value.data.value.isComplete == (stage == Functionality)
    ensures r.statusCode != 200 ==> r.body.Some? && r.body.value.step == StepName(stage)
  {
    if !Field(j, "prompt").Str? then StageFailure(stage, SubstringError, 0)
    else if env.initError.Some? then StageFailure(stage, env.initError.value, 0)
    else if env.modelError.Some? then StageFailure(stage, env.modelError.value, 0)
    else
      var guarded := WithTimeout(calls[0], StepDeadline(stage));
      match guarded.outcome
      case Rejected(e) => StageFailure(stage, e, 1)
      case Resolved(g) =>
        match g.text
        case Rejected(e) => StageFailure(stage, e, 1)
        case Resolved(text) =>
          var html := StripFences(text);
          var data := StepData(stage, html, j);
          Response(200, Some(Succeed(StepName(stage), data)), 1)
  }

  /** The deadline of the single call of the last two steps */
  function StepDeadline(stage: Stage): nat {
    if stage == Styles then 8000 else 15000
  }

  /** The success payload of the last two steps. The styling step ignores a
      description in the request; the functionality step falls back to it. */
  function StepData(stage: Stage, html: string, j: Json): (d: SiteData)
    requires stage == Styles || stage == Functionality
    ensures d.html == html && d.prompt == Field(j, "prompt") && d.description.Some?
    ensures d.title == TitleOrRequested(html, Field(j, "title"))
    ensures stage == Styles ==> d.description == Some(Str(DescriptionOr(html, StyledDescriptionDefault)))
    ensures stage == Functionality ==> d.description == Some(DescriptionOrRequested(html, Field(j, "description")))
    ensures d.isComplete <==> stage == Functionality
  {
    var title := TitleOrRequested(html, Field(j, "title"));
    if stage == Styles then
      SiteData(html, title, Some(Str(DescriptionOr(html, StyledDescriptionDefault))), Field(j, "prompt"), false)
    else
      SiteData(html, title, Some(DescriptionOrRequested(html, Field(j, "description"))), Field(j, "prompt"), true)
  }

  /** The most calls a function makes for one request */
  function CallBudget(stage: Stage): nat {
    if stage == Html then 2 else 1
  }

  /** A whole function: the gates, then the generation */
  function Handle(stage: Stage, ev: Event, env: Env, parse: string -> Parsed, calls: seq<Timed<Generated>>): (r: Response)
    requires |calls| >= CallBudget(stage)
    ensures Gatekeep(stage, ev, env, parse).Reject? ==> r.calls == 0
    ensures r.calls <= CallBudget(stage)
    ensures r.statusCode in {200, 400, 405, 429, 500, 502}
    ensures r.statusCode == 429 ==> stage == Website
    ensures r.statusCode == 200 && ev.httpMethod != "OPTIONS" ==>
      r.body.Some? && r.body.value.data.Some? && CleanPage(r.body.value.data.value)
  {
    match Gatekeep(stage, ev, env, parse)
    case Reject(status, body) => Response(status, body, 0)
    case Proceed(j) =>
      match stage
      case Website => GenerateWebsite(Field(j, "prompt").s, env, calls)
      case Html => GenerateHtml(Field(j, "prompt").s, env, calls)
      case _ => GenerateStep(stage, j, env, calls)
  }

  /** No request that some gate turns away reaches the model, and every
      request that passes all gates, with the SDK set up, does */
  lemma CallsOnlyPastTheGates(stage: Stage, ev: Event, env: Env, parse: string -> Parsed, calls: seq<Timed<Generated>>)
    requires |calls| >= CallBudget(stage)
    ensures Handle(stage, ev, env, parse, calls).calls > 0 <==>
      && Gatekeep(stage, ev, env, parse).Proceed?
      && env.initError.None? && env.modelError.None?
      && (stage == Styles || stage == Functionality ==> Field(Gatekeep(stage, ev, env, parse).json, "prompt").Str?)
  {
  }

  /** The gates in order: each one answers regardless of everything checked
      after it */
  lemma GateOrder(stage: Stage, ev: Event, env: Env, parse: string -> Parsed, calls: seq<Timed<Generated>>)
    requires |calls| >= CallBudget(stage)
    ensures ev.httpMethod == "OPTIONS" ==> Handle(stage, ev, env, parse, calls) == Response(200, None, 0)
    ensures ev.httpMethod != "OPTIONS" && ev.httpMethod != "POST" ==>
      Handle(stage, ev, env, parse, calls).statusCode == 405 && Handle(stage, ev, env, parse, calls).calls == 0
    ensures ev.httpMethod == "POST" && env.apiKey == "" ==>
      Handle(stage, ev, env, parse, calls).statusCode == 500 && Handle(stage, ev, env, parse, calls).calls == 0
    ensures ev.httpMethod == "POST" && env.apiKey != "" && parse(BodyText(ev.body)).ParseError? ==>
      Handle(stage, ev, env, parse, calls).statusCode == 400 && Handle(stage, ev, env, parse, calls).calls == 0
  {
  }

  /** A missing or empty body is read as `{}`, which parses, so it is
      turned away for its prompt and not for its syntax */
  lemma MissingBodyFailsOnPrompt(stage: Stage, env: Env, parse: string -> Parsed, calls: seq<Timed<Generated>>)
    requires |calls| >= CallBudget(stage)
    requires env.apiKey != ""
    requires parse("{}") == Parsed(JsonObject(map[]))
    ensures var r := Handle(stage, Event("POST", None), env, parse, calls);
      r.statusCode == 400 && r.calls == 0 && r.body.Some?
      && r.body.value.error != Some("Invalid JSON in request body")
  {
    assert Field(JsonObject(map[]), "prompt") == Undefined;
  }

  /** A blank prompt is refused by the one-shot and HTML functions but
      accepted by the styling and functionality steps */
  lemma BlankPromptOnlyStepsAccept(p: string, html: Value)
    requires |p| > 0 && AllSpace(p) && Truthy(html)
    ensures !FieldsAccepted(Website, JsonObject(map["prompt" := Str(p), "html" := html]))
    ensures !FieldsAccepted(Html, JsonObject(map["prompt" := Str(p), "html" := html]))
    ensures FieldsAccepted(Styles, JsonObject(map["prompt" := Str(p), "html" := html]))
    ensures FieldsAccepted(Functionality, JsonObject(map["prompt" := Str(p), "html" := html]))
  {
    var j := JsonObject(map["prompt" := Str(p), "html" := html]);
    assert Field(j, "prompt") == Str(p);
    assert Field(j, "html") == html;
    BlankTrimsToEmpty(p);
  }

  /** A string of whitespace trims to nothing */
  lemma BlankTrimsToEmpty(p: string)
    requires AllSpace(p)
    ensures |Trim(p)| == 0
  {
    var n := LeadingSpace(p);
    assert n < |p| ==> IsSpace(p[n]);
  }

  /** A truthy prompt that is not a string gets past the styling gates and
      then fails on `substring`, with no call made */
  lemma NonStringPromptThrows(stage: Stage, j: Json, env: Env, calls: seq<Timed<Generated>>)
    requires stage == Styles || stage == Functionality
    requires |calls| >= 1
    requires !Field(j, "prompt").Str?
    ensures var r := GenerateStep(stage, j, env, calls);
      r.statusCode == 500 && r.calls == 0 && r.body.value.errorType == Some("TypeError")
  {
    SubstringErrorIsNoTimeout();
  }

  lemma SubstringErrorIsNoTimeout()
    ensures !Mentions(SubstringError.message, TimeoutWords)
  {
    var m := SubstringError.message;
    NoThreeLetterHead(m, "tim");
    HeadAbsent(m, "tim", "timed out");
    HeadAbsent(m, "tim", "timeout");
    MentionsFacts(m);
  }

  /** A model call that has not settled by the one-shot deadline of 30 s is
      answered with 502 and the timeout text */
  lemma WebsiteLateCall(prompt: string, env: Env, calls: seq<Timed<Generated>>)
    requires |calls| >= 1 && calls[0].at >= 30000
    requires env.initError.None? && env.modelError.None?
    ensures var r := GenerateWebsite(prompt, env, calls);
      r == Response(502, Some(Fail(None, "Request timeout", Some(SlowDetails), Some("TimeoutError"))), 1)
  {
    TimerRejectionIsTimeout(30000, "");
  }

  /** The one-shot function's 10 s response guard never fires: the response
      it races is already there */
  lemma ResponseGuardNeverFires(g: Generated)
    ensures WithTimeout(Timed(0, Resolved(g)), 10000) == Timed(0, Resolved(g))
  {
  }

  /** When both HTML attempts outlive their 15 s race, the step makes two
      calls and answers 502 TimeoutError */
  lemma HtmlBothLate(prompt: string, env: Env, calls: seq<Timed<Generated>>)
    requires |calls| >= 2 && calls[0].at >= 15000 && calls[1].at >= 15000
    requires env.initError.None? && env.modelError.None?
    ensures var r := GenerateHtml(prompt, env, calls);
      r.statusCode == 502 && r.calls == 2 && r.body.value.errorType == Some("TimeoutError")
  {
    TimerRejectionIsTimeout(15000, StepError(Html));
  }

  /** A second HTML attempt rescues a first that timed out */
  lemma HtmlSecondAttempt(prompt: string, env: Env, calls: seq<Timed<Generated>>, text: string)
    requires |calls| >= 2 && calls[0].at >= 15000
    requires calls[1].at < 15000 && calls[1].outcome == Resolved(Generated(Resolved(text)))
    requires env.initError.None? && env.modelError.None?
    ensures var r := GenerateHtml(prompt, env, calls);
      r.statusCode == 200 && r.calls == 2 && r.body.value.data.value.html == StripFences(text)
  {
    var attempts := [WithTimeout(calls[0], 15000), WithTimeout(calls[1], 15000)];
    RetryMeetsReference(attempts, 2, Geometric(1000.0), 1);
  }

  /** The styling step's call is cut off at 8 s and the functionality
      step's at 15 s, without retry */
  lemma StepLateCall(stage: Stage, j: Json, env: Env, calls: seq<Timed<Generated>>)
    requires stage == Styles || stage == Functionality
    requires |calls| >= 1 && calls[0].at >= StepDeadline(stage)
    requires Field(j, "prompt").Str? && env.initError.None? && env.modelError.None?
    ensures var r := GenerateStep(stage, j, env, calls);
      r.statusCode == 502 && r.calls == 1 && r.body.value.errorType == Some("TimeoutError")
  {
    TimerRejectionIsTimeout(StepDeadline(stage), StepError(stage));
  }

  /** A page title wins over the request's; without one the request's truthy
      title is kept, and the styling step's description never comes from the
      request while the functionality step's does */
  lemma StepFallbacks(html: string, j: Json)
    requires NoMatchIn(Of(TitleLazy), html, |html|) && NoMatchIn(Of(MetaDescription), html, |html|)
    ensures Truthy(Field(j, "title")) ==> StepData(Styles, html, j).title == Field(j, "title")
    ensures !Truthy(Field(j, "title")) ==> StepData(Functionality, html, j).title == Str(DefaultTitle)
    ensures StepData(Styles, html, j).description == Some(Str(StyledDescriptionDefault))
    ensures Truthy(Field(j, "description")) ==> StepData(Functionality, html, j).description == Some(Field(j, "description"))
    ensures !Truthy(Field(j, "description")) ==>
      StepData(Functionality, html, j).description == Some(Str(InteractiveDescriptionDefault))
  {
    if Truthy(Field(j, "title")) {
      RequestedTitleKept(html, Field(j, "title"));
    }
    assert ExtractDescription(html).None?;
  }

  /** The one-shot and HTML functions refuse a prompt that is absent, not a
      string, or blank with 400 and make no call */
  lemma PromptRefused(stage: Stage, ev: Event, env: Env, parse: string -> Parsed, calls: seq<Timed<Generated>>, fields: map<string, Value>)
    requires stage == Website || stage == Html
    requires |calls| >= CallBudget(stage)
    requires ev.httpMethod == "POST" && env.apiKey != ""
    requires parse(BodyText(ev.body)) == Parsed(JsonObject(fields))
    requires var p := Field(JsonObject(fields), "prompt"); p == Undefined || !p.Str? || AllSpace(p.s)
    ensures var r := Handle(stage, ev, env, parse, calls);
      r.statusCode == 400 && r.calls == 0
      && r.body.value.error == Some(if stage == Website then "Invalid prompt" else "Invalid prompt - must be a non-empty string")
  {
    var p := Field(JsonObject(fields), "prompt");
    if p.Str? {
      BlankTrimsToEmpty(p.s);
    }
  }

  /** A one-shot call that settles within 30 s decides the answer: a
      rejection is classified, a failing `text()` is a 500, and a text is
      served cleaned, with its title and description or their defaults */
  lemma WebsiteTimely(prompt: string, env: Env, calls: seq<Timed<Generated>>)
    requires |calls| >= 1 && calls[0].at < 30000
    requires env.initError.None? && env.modelError.None?
    ensures var r := GenerateWebsite(prompt, env, calls);
      calls[0].outcome.Rejected? ==>
        var f := ClassifyGeneration(calls[0].outcome.error);
        r == Response(f.status, Some(Fail(None, f.error, Some(f.details), Some(f.errorType))), 1)
    ensures var r := GenerateWebsite(prompt, env, calls);
      calls[0].outcome.Resolved? && calls[0].outcome.value.text.Rejected? ==>
        r == Response(500, Some(Fail(None, "Failed to extract generated content", Some(calls[0].outcome.value.text.error.message), None)), 1)
    ensures var r := GenerateWebsite(prompt, env, calls);
      calls[0].outcome.Resolved? && calls[0].outcome.value.text.Resolved? ==>
        var html := StripFences(calls[0].outcome.value.text.value);
        r == Response(200, Some(Succeed(None, SiteData(html, Str(TitleOrDefault(html)),
          Some(Str(DescriptionOr(html, WebsiteDescriptionDefault))), Str(prompt), false))), 1)
  {
  }

  /** A first HTML attempt that settles within 15 s with a response is the
      only call: its text is served cleaned with its title or the default,
      and a failing `text()` is the step's failure */
  lemma HtmlFirstAttempt(prompt: string, env: Env, calls: seq<Timed<Generated>>)
    requires |calls| >= 2 && calls[0].at < 15000 && calls[0].outcome.Resolved?
    requires env.initError.None? && env.modelError.None?
    ensures var r := GenerateHtml(prompt, env, calls);
      calls[0].outcome.value.text.Rejected? ==> r == StageFailure(Html, calls[0].outcome.value.text.error, 1)
    ensures var r := GenerateHtml(prompt, env, calls);
      calls[0].outcome.value.text.Resolved? ==>
        var html := StripFences(calls[0].outcome.value.text.value);
        r == Response(200, Some(Succeed(Some("html"), SiteData(html, Str(TitleOrDefault(html)), None, Str(prompt), false))), 1)
  {
    var attempts := [WithTimeout(calls[0], 15000), WithTimeout(calls[1], 15000)];
    RetryMeetsReference(attempts, 2, Geometric(1000.0), 0);
  }

  /** When both HTML attempts fail, late or not, the step fails with the
      second attempt's error after two calls */
  lemma HtmlBothFail(prompt: string, env: Env, calls: seq<Timed<Generated>>)
    requires |calls| >= 2
    requires WithTimeout(calls[0], 15000).outcome.Rejected? && WithTimeout(calls[1], 15000).outcome.Rejected?
    requires env.initError.None? && env.modelError.None?
    ensures GenerateHtml(prompt, env, calls) == StageFailure(Html, WithTimeout(calls[1], 15000).outcome.error, 2)
  {
    var attempts := [WithTimeout(calls[0], 15000), WithTimeout(calls[1], 15000)];
    RetryMeetsReference(attempts, 2, Geometric(1000.0), 0);
  }

  /** A step call that settles before the step's deadline decides the
      answer: a rejection or a failing `text()` is the step's failure, and a
      text is served cleaned with the step's payload */
  lemma StepTimely(stage: Stage, j: Json, env: Env, calls: seq<Timed<Generated>>)
    requires stage == Styles || stage == Functionality
    requires |calls| >= 1 && calls[0].at < StepDeadline(stage)
    requires Field(j, "prompt").Str? && env.initError.None? && env.modelError.None?
    ensures var r := GenerateStep(stage, j, env, calls);
      calls[0].outcome.Rejected? ==> r == StageFailure(stage, calls[0].outcome.error, 1)
    ensures var r := GenerateStep(stage, j, env, calls);
      calls[0].outcome.Resolved? && calls[0].outcome.value.text.Rejected? ==>
        r == StageFailure(stage, calls[0].outcome.value.text.error, 1)
    ensures var r := GenerateStep(stage, j, env, calls);
      calls[0].outcome.Resolved? && calls[0].outcome.value.text.Resolved? ==>
        r == Response(200, Some(Succeed(StepName(stage), StepData(stage, StripFences(calls[0].outcome.value.text.value), j))), 1)
  {
  }
}
