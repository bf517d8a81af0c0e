/** The Express server's `/api/generate-website` route and its CORS origin
    list. Unlike the Netlify functions it checks the prompt before the API
    key, makes one unguarded call, cleans the text by cutting it at the
    fences, and answers every thrown error with the same 500. */
module Server {
  import opened Js
  import opened Async
  import opened Cleanup
  import opened Metadata
  import opened Handlers

  const DefaultOrigins: seq<string> := [
    "http://localhost:8080",
    "http://localhost:8081",
    "http://localhost:8082",
    "http://localhost:3000",
    "http://127.0.0.1:8080",
    "http://127.0.0.1:8081",
    "http://127.0.0.1:8082"
  ]

  /** The origins CORS admits: the comma-separated `ALLOWED_ORIGINS` when it
      is set and non-empty, else the seven local development origins */
  function AllowedOrigins(setting: Option<string>): (r: seq<string>)
    ensures |r| > 0
    ensures setting.None? || setting.value == "" ==> r == DefaultOrigins
    ensures setting.Some? && setting.value != "" ==> Join(r, ',') == setting.value
    ensures setting.Some? && setting.value != "" ==> forall k :: 0 <= k < |r| ==> ',' !in r[k]
  {
    match setting
    case Some(s) =>
      if s != "" then
        SplitJoin(s, ',');
        Split(s, ',')
      else DefaultOrigins
    case None => DefaultOrigins
  }

  /** An origin list written out with commas reads back as the same list,
      provided no origin holds a comma */
  lemma {:induction false} OriginsRoundTrip(origins: seq<string>)
    requires |origins| > 0
    requires forall k :: 0 <= k < |origins| ==> ',' !in origins[k]
    ensures Split(Join(origins, ','), ',') == origins
    decreases |origins|
  {
    var s := Join(origins, ',');
    if |origins| > 1 {
      var rest := Join(origins[1..], ',');
      assert s == origins[0] + [','] + rest;
      FirstCommaAfter(origins[0], rest);
      var i := FirstIndexOfChar(s, ',');
      assert s[..i] == origins[0];
      assert s[i + 1..] == rest;
      OriginsRoundTrip(origins[1..]);
    }
  }

  /** The first comma of `a + "," + b` with no comma in a is the one after a */
  lemma {:induction false} FirstCommaAfter(a: string, b: string)
    requires ',' !in a
    ensures ',' in a + [','] + b
    ensures FirstIndexOfChar(a + [','] + b, ',') == |a|
    decreases |a|
  {
    var s := a + [','] + b;
    assert s[|a|] == ',';
    if |a| > 0 {
      assert s[1..] == a[1..] + [','] + b;
      assert a[0] != ',' by { assert a[0] in a; }
      FirstCommaAfter(a[1..], b);
    }
  }

  /** What destructuring a null body throws */
  const NullDestructureMessage: string := "Cannot destructure property 'prompt' of 'req.body' as it is null."

  /** What `prompt.trim` throws when the prompt is not a string */
  const TrimNotFunction: string := "prompt.trim is not a function"

  function Failed(details: string): Envelope {
    Envelope(None, None, Some("Failed to generate website"), Some(details), None, None)
  }

  function Refused(error: string): Envelope {
    Envelope(None, None, Some(error), None, None, None)
  }

  /** The route: the prompt check (truthiness, then `trim`, which throws for
      a non-string), the key check, the model, one call, the split clean-up
      and the title and description regular expressions; a thrown error
      becomes a 500 with its message */
  function HandleGenerate(body: Json, apiKey: string, modelError: Option<JsError>, call: Settled<Generated>): (r: Response)
    ensures r.statusCode in {200, 400, 500}
    ensures r.calls <= 1 && r.body.Some?
    ensures r.calls == 1 <==>
      body != JsonNull && PromptUsable(Field(body, "prompt")) && apiKey != "" && modelError.None?
    ensures r.statusCode == 400 <==>
      (body != JsonNull && !PromptUsable(Field(body, "prompt"))
       && (Field(body, "prompt").Str? || !Truthy(Field(body, "prompt"))))
    ensures r.statusCode == 200 ==> r.body.value.data.Some? && r.body.value.success == Some(true)
    ensures r.statusCode == 200 ==>
      var d := r.body.value.data.value;
      d.title.Str? && |d.title.s| > 0 && '<' !in d.title.s && d.prompt == Field(body, "prompt")
    ensures r.statusCode == 200 ==>
      && call.Resolved? && call.value.text.Resolved? && Field(body, "prompt").Str?
      && var html := SplitFences(call.value.text.value);
         && r.body.value.data.value.html == html
         && r.body.value.data.value.title == Str(ServerTitleOrDefault(html))
         && r.body.value.data.value.description == Some(Str(ServerDescriptionOrDefault(html, Field(body, "prompt").s)))
  {
    if body == JsonNull then Response(500, Some(Failed(NullDestructureMessage)), 0)
    else
      var prompt := Field(body, "prompt");
      if !Truthy(prompt) then Response(400, Some(Refused("Prompt is required")), 0)
      else if !prompt.Str? then Response(500, Some(Failed(TrimNotFunction)), 0)
      else if |Trim(prompt.s)| == 0 then Response(400, Some(Refused("Prompt is required")), 0)
      else if apiKey == "" then Response(500, Some(Refused("Gemini API key not configured")), 0)
      else if modelError.Some? then Response(500, Some(Failed(modelError.value.message)), 0)
      else match call
        case Rejected(e) => Response(500, Some(Failed(e.message)), 1)
        case Resolved(g) =>
          match g.text
          case Rejected(e) => Response(500, Some(Failed(e.message)), 1)
          case Resolved(text) =>
            var html := SplitFences(text);
            var data := SiteData(html, Str(ServerTitleOrDefault(html)), Some(Str(ServerDescriptionOrDefault(html, prompt.s))), prompt, false);
            Response(200, Some(Envelope(Some(true), None, None, None, None, Some(data))), 1)
  }

  /** The prompt is checked before the key: a blank prompt is refused with
      400 even on a server without a key */
  lemma PromptBeforeKey(p: string, modelError: Option<JsError>, call: Settled<Generated>)
    requires AllSpace(p)
    ensures var r := HandleGenerate(JsonObject(map["prompt" := Str(p)]), "", modelError, call);
      r.statusCode == 400 && r.body.value.error == Some("Prompt is required") && r.calls == 0
  {
    assert Field(JsonObject(map["prompt" := Str(p)]), "prompt") == Str(p);
    BlankTrimsToEmpty(p);
  }

  /** A truthy prompt that is not a string makes `trim` throw, which the
      route's catch answers with its generic 500 */
  lemma NonStringPromptIs500(body: Json, apiKey: string, modelError: Option<JsError>, call: Settled<Generated>)
    requires body != JsonNull && Truthy(Field(body, "prompt")) && !Field(body, "prompt").Str?
    ensures HandleGenerate(body, apiKey, modelError, call) == Response(500, Some(Failed(TrimNotFunction)), 0)
  {
  }

  /** The served page is the model's text cut at its fences; text without
      any fence is served as it came, surrounding whitespace included */
  lemma ServedPage(body: Json, apiKey: string, text: string)
    requires body != JsonNull && PromptUsable(Field(body, "prompt")) && apiKey != ""
    ensures var r := HandleGenerate(body, apiKey, None, Resolved(Generated(Resolved(text))));
      r.statusCode == 200 && r.body.value.data.value.html == SplitFences(text)
      && (!Contains(text, Backticks) ==> r.body.value.data.value.html == text)
  {
  }

  /** Without a description tag the description names the prompt */
  lemma DescriptionNamesPrompt(body: Json, apiKey: string, text: string)
    requires body != JsonNull && PromptUsable(Field(body, "prompt")) && apiKey != ""
    ensures var r := HandleGenerate(body, apiKey, None, Resolved(Generated(Resolved(text))));
      ExtractServerDescription(SplitFences(text)).None? ==>
        r.body.value.data.value.description == Some(Str(ServerDescriptionLead + Field(body, "prompt").s))
  {
  }
}
