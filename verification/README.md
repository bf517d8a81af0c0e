# WebGenerator in Dafny

This project models the core of WebGenerator. WebGenerator turns a prompt into a single HTML page by asking Google's Gemini model.

The model covers these parts of the system:

- the four Netlify functions:
  - `generate-website`, the one-shot generator;
  - `generate-html`, `generate-styles` and `generate-functionality`, the three steps of the staged generator;
- the Express server's `/api/generate-website` route and its CORS origin list;
- the generator page, which turns an API answer or failure into page state and a toast, and names exported files;
- the preview's HTML neutraliser and its loading-step ticker;
- the header's light/dark theme.

Every handler is a pure function of its request, its environment and the outcomes of the model calls. A model call is a value `Timed(at, outcome)`: the time at which the promise settles, and whether it resolved or rejected.

The modules are:

- `Js`: the JavaScript vocabulary the code relies on. It covers truthiness, `||`, `trim`, ASCII lower-casing, `indexOf`, `split` and `join`, and decimal formatting.
- `Regex`: the regular expressions the code uses, each as a hand-written matcher. It also has the global and first-only `replace` and `match` scanners built on them.
- `Async`: `withTimeout`, modelled as a race against a timer, and the two retry loops with their linear and geometric back-off.
- `Cleanup`: the fence-stripping clean-up of the Netlify functions, and the split-based clean-up of the Express route.
- `Metadata`: title and description extraction, with their fallbacks.
- `Classify`: how each catch block maps an error message to an HTTP status and error type.
- `Handlers`: the four Netlify functions, with their gates, calls, clean-up and response envelopes.
- `Server`: the Express route and `ALLOWED_ORIGINS`.
- `Generator`: `handleGenerate`, its toast mapping, and the export file name.
- `Preview`: `getSafeHtml` and the loading-step interval.
- `Theme`: the header's theme decision and its toggle.

## Model

| member | source | states |
|---|---|---|
| Js.Trim | netlify/functions/generate-website.js:103-116 | the result is a slice of the input with only whitespace cut from either end, and it has no surrounding whitespace left |
| Js.TrimmedIsFixed | netlify/functions/generate-website.js:274 | `trim` leaves a string with no surrounding whitespace unchanged |
| Js.IndexOf | server/index.js:182-187 | the index found is the first occurrence of the needle; None exactly when the needle is absent |
| Js.NatToStringRoundTrip | netlify/functions/generate-website.js:8 | the decimal digits written into the timeout message read back as the deadline |
| Js.Split | server/index.js:24 | `split(',')` gives at least one piece, and no piece holds the separator |
| Js.SplitJoin | server/index.js:24 | joining the pieces of a split with the separator gives back the original text |
| Regex.ReplaceAllNoMatch | src/components/PreviewSection.tsx:80-89 | a global replace leaves a text with no match unchanged |
| Regex.ReplaceFirstNoMatch | src/components/PreviewSection.tsx:91-120 | a first-only replace leaves a text with no match unchanged |
| Regex.ReplaceAllSkip | src/components/PreviewSection.tsx:80-89 | a prefix in which no match starts is copied through unchanged, and the rest is replaced on its own |
| Regex.ReplaceAllAtFirst | src/components/PreviewSection.tsx:80-89 | at the first match, its expansion is emitted and replacing resumes right after the match |
| Regex.ReplaceFirstAtFirst | src/components/PreviewSection.tsx:91-120 | at the first match, its expansion is emitted and the rest of the text is left as it was |
| Regex.RemovalShrinks | src/components/PreviewSection.tsx:80 | deleting every match never lengthens a text, and strictly shortens one that has a match |
| Regex.FindFirst | netlify/functions/generate-website.js:277-278 | `match` finds the leftmost match; None exactly when no position matches |
| Regex.FindFirstAfter | netlify/functions/generate-website.js:277-278 | a match right after a prefix with no match start is the one `match` returns |
| Async.TimeoutMessage | netlify/functions/generate-website.js:8 | the timer's message is "Operation timed out after ", then the digits, then "ms" |
| Async.WithTimeout | netlify/functions/generate-website.js:4-11 | the race settles by the deadline; the promise wins only when it settles strictly before it, and otherwise the timer's error wins |
| Async.TimeoutMessageSaysTimedOut | netlify/functions/generate-html.js:26 | every timer message contains "timed out" |
| Async.WithTimeoutOwnRejection | netlify/functions/generate-html.js:22-29 | any outcome the race changes becomes the timer's rejection, and only when the promise settled at or after the deadline |
| Async.WithTimeoutNested | netlify/functions/generate-html.js:22-29 | racing an already raced promise against the same or a later deadline changes nothing |
| Async.Retry | netlify/functions/generate-html.js:4-19 | the result is the first success or the last attempt's error; below one attempt no call is made and the result is undefined; the calls, the pauses and each pause's length are bounded and determined |
| Async.RetryMeetsReference | netlify/functions/generate-website.js:14-26 | the loop agrees with its non-recursive reading: the first resolving attempt wins, and when all fail the last error is thrown after maxRetries calls |
| Async.RetryElapsed | netlify/functions/generate-html.js:4-19 | the time a run spends is the time of its calls plus its pauses |
| Async.LinearWaitTotal | netlify/functions/generate-website.js:23 | with linear back-off, k calls pause delay·k(k−1)/2 in total |
| Async.GeometricWaitTotal | netlify/functions/generate-html.js:15-16 | with back-off ×1.5, k calls pause 2·delay·(1.5^(k−1) − 1) in total |
| Async.SingleAttempt | netlify/functions/generate-website.js:182-191 | the one-shot's retry loop with one attempt makes exactly one call and never pauses |
| Async.TwoGuardedAttempts | netlify/functions/generate-html.js:144-149 | the HTML step makes one or two calls of at most 15 s each, pauses 1000 ms only before a second call, and settles within 31 s |
| Cleanup.StripFences | netlify/functions/generate-website.js:274 | the cleaned text holds no "```" and has no surrounding whitespace |
| Cleanup.FenceRemovalLeavesNone | netlify/functions/generate-html.js:157 | deleting the fences cannot create a new "```" where deleted text was joined |
| Cleanup.StripFencesFixedPoints | netlify/functions/generate-styles.js:153 | the clean-up leaves a text unchanged exactly when it has no "```" and no surrounding whitespace |
| Cleanup.StripFencesIdempotent | netlify/functions/generate-functionality.js:158 | cleaning twice is cleaning once |
| Cleanup.Before | server/index.js:183-187 | `split(sep)[0]` is the prefix up to the first separator, or the whole text when there is none |
| Cleanup.SplitFences | server/index.js:181-187 | the cleaned page is a substring of the model's text, and text without "```" is served as it came |
| Cleanup.SplitFencesExtractsBlock | server/index.js:181-187 | a fenced block with a non-empty, fence-free body is cut out exactly |
| Cleanup.SplitFencesTrailingBacktick | server/index.js:186 | a block body that ends with a backtick loses that backtick |
| Cleanup.SplitFencesBacktickAfterFence | server/index.js:183-184 | a backtick right after the closing fence is kept in the result |
| Cleanup.SplitFencesFirstPiece | server/index.js:183-187 | when the first cut gives a non-empty, fence-free piece, that piece is served |
| Metadata.ExtractTitle | netlify/functions/generate-website.js:277 | a title is returned exactly when the pattern matches somewhere, and it is text on one line with no closing tag |
| Metadata.TitleRoundTrip | netlify/functions/generate-html.js:160 | a title written between `<title>` tags reads back unchanged when no earlier `<title>` tag comes before it |
| Metadata.ExtractDescription | netlify/functions/generate-website.js:278 | a description is returned exactly when the meta pattern matches, and it is quote-free text on one line |
| Metadata.DescriptionRoundTrip | netlify/functions/generate-website.js:278 | a description written in the prompted meta tag reads back unchanged when no earlier `<meta` tag comes before it |
| Metadata.ExtractServerTitle | server/index.js:190 | the server's title is non-empty and free of `<`; None exactly when its pattern never matches |
| Metadata.ExtractServerDescription | server/index.js:194 | the server's description is non-empty and free of `"`; None exactly when its pattern never matches |
| Metadata.ServerDescriptionRoundTrip | server/index.js:194 | a non-empty description free of `"` and not ending in `=`, written as `<meta name="description" content="…">`, reads back unchanged when no earlier `<meta` tag comes before it |
| Metadata.ServerDescriptionLaterContent | server/index.js:194 | the greedy `[^>]*` backtracks only as far as the last `content="` before the tag's `>`: a description ending in `content=` followed by another `"` reads back as `>` |
| Metadata.ServerTitleRoundTrip | server/index.js:190 | a non-empty title free of `<` reads back unchanged when no earlier `<title` tag comes before it |
| Metadata.TitleOrDefault | netlify/functions/generate-website.js:280 | the page's title when it has one, otherwise 'Generated Website' |
| Metadata.TitleOrRequested | netlify/functions/generate-styles.js:156-159 | the page's title when it has one, otherwise a truthy value: the request's title or the default |
| Metadata.PageTitleWins | netlify/functions/generate-functionality.js:161-164 | a title on the page takes precedence over the request's title |
| Metadata.RequestedTitleKept | netlify/functions/generate-styles.js:159 | without a page title, a truthy requested title is kept |
| Metadata.DescriptionOr | netlify/functions/generate-website.js:281 | the page's description when it has one, otherwise the given fallback |
| Metadata.DescriptionOrRequested | netlify/functions/generate-functionality.js:165 | the page's description when it has one, otherwise a truthy value |
| Metadata.PageDescriptionWins | netlify/functions/generate-functionality.js:162-165 | a description on the page takes precedence over the request's |
| Metadata.ServerTitleOrDefault | server/index.js:190-191 | the title is the one the server pattern extracts when it matches and "Generated Website" otherwise; either way it is non-empty and free of `<` |
| Metadata.ServerDescriptionOrDefault | server/index.js:194-195 | the captured description when the server pattern matches, and "AI-generated website based on: " followed by the prompt otherwise; always non-empty |
| Classify.MessageOr | netlify/functions/generate-website.js:223-232 | `error.message \|\| fallback` is the message when it is non-empty, otherwise the fallback |
| Classify.ClassifyGeneration | netlify/functions/generate-website.js:192-233 | "timed out" wins and gives 502 TimeoutError; otherwise rate-limit words give 429; everything else is a 502 carrying the error's own message and name |
| Classify.ClassifyResponse | netlify/functions/generate-website.js:246-249 | always 502; TimeoutError exactly when the message says "timed out", and ResponseError with the message otherwise |
| Classify.ClassifyUnexpected | netlify/functions/generate-website.js:306-318 | checks timeout words, then rate words, then network words; it answers 500 exactly when none occurs |
| Classify.ClassifyStage | netlify/functions/generate-styles.js:188-194 | 502 TimeoutError exactly when the message mentions a timeout, and 500 with the error's name otherwise |
| Classify.TimerRejectionIsTimeout | netlify/functions/generate-html.js:188-194 | every classifier reports every timer rejection as a timeout |
| Classify.GuardedFailureClassification | netlify/functions/generate-website.js:182-207 | a failed raced call is a timeout when it missed the deadline, and is classified by its own error otherwise |
| Classify.CaseSensitive | netlify/functions/generate-functionality.js:195-201 | a message "Timed Out" is not a timeout to the step classifier, the one-shot's call and response guards, or its outer catch, which answers it with 500 |
| Classify.TimedOutAgrees | netlify/functions/generate-website.js:306-318 | all classifiers report a "timed out" message as 502 TimeoutError |
| Classify.TimeoutSpellingDiffers | netlify/functions/generate-website.js:196 | "timeout" without "timed out" is a generic 502 to the generation classifier but a timeout to the outer catch and the steps |
| Handlers.BodyText | netlify/functions/generate-website.js:85 | `event.body \|\| '{}'` is the body when it is non-empty, otherwise "{}" |
| Handlers.Gatekeep | netlify/functions/generate-website.js:41-116 | the gates run in a fixed order: OPTIONS gives 200, other non-POST methods 405, a missing key 500, bad JSON 400, a null body or unusable fields 400; only a request past all of them proceeds, with its parsed body |
| Handlers.StageFailure | netlify/functions/generate-styles.js:181-207 | the step's failure envelope names the step and its error, and is 502 exactly for timeouts and 500 otherwise |
| Handlers.GenerateWebsite | netlify/functions/generate-website.js:121-330 | at most one call, made exactly when the SDK was set up; 200 carries a cleaned page, the prompt and a description; every other status carries a failure envelope (the outcome per call is stated by Handlers.WebsiteTimely and Handlers.WebsiteLateCall) |
| Handlers.GenerateHtml | netlify/functions/generate-html.js:112-207 | at most two calls; 200 carries a cleaned page under step "html" and no description; failures also name the step (per-attempt outcomes: Handlers.HtmlFirstAttempt, Handlers.HtmlSecondAttempt, Handlers.HtmlBothFail, Handlers.HtmlBothLate) |
| Handlers.GenerateStep | netlify/functions/generate-styles.js:98-207 | at most one call, made only for a string prompt; 200 carries a cleaned page under its step, complete only for the functionality step (the outcome per call is stated by Handlers.StepTimely and Handlers.StepLateCall) |
| Handlers.StepData | netlify/functions/generate-functionality.js:160-186 | the step's page data keeps the html and prompt, takes title and description from the page or the request, and is complete only for functionality |
| Handlers.Handle | netlify/functions/generate-website.js:39-331 | a rejected request makes no call; calls stay within the stage's budget; 429 only comes from the one-shot; every 200 past the gates carries a cleaned page |
| Handlers.CallsOnlyPastTheGates | netlify/functions/generate-html.js:53-149 | the model is called exactly when every gate passed, the SDK set up, and, for the steps, the prompt is a string |
| Handlers.GateOrder | netlify/functions/generate-styles.js:26-79 | each gate answers regardless of everything checked after it |
| Handlers.MissingBodyFailsOnPrompt | netlify/functions/generate-website.js:85 | a missing body is turned away for its prompt, not as invalid JSON |
| Handlers.BlankPromptOnlyStepsAccept | netlify/functions/generate-styles.js:81-96 | a blank prompt is refused by the one-shot and HTML functions but accepted by the styling and functionality steps |
| Handlers.NonStringPromptThrows | netlify/functions/generate-functionality.js:98 | a truthy non-string prompt fails on `substring` with 500 TypeError, and no call is made |
| Handlers.WebsiteLateCall | netlify/functions/generate-website.js:182-207 | a call unsettled after 30 s gives 502 "Request timeout" |
| Handlers.ResponseGuardNeverFires | netlify/functions/generate-website.js:235-252 | the 10 s guard on an already available response never fires |
| Handlers.HtmlBothLate | netlify/functions/generate-html.js:144-149 | two late attempts make two calls and give 502 TimeoutError |
| Handlers.HtmlSecondAttempt | netlify/functions/generate-html.js:144-179 | a second attempt in time rescues a late first one and serves its cleaned text |
| Handlers.StepLateCall | netlify/functions/generate-styles.js:142-145 | the styling step cuts off at 8 s and the functionality step at 15 s, without retry, with 502 TimeoutError |
| Handlers.PromptRefused | netlify/functions/generate-website.js:103-116 | an absent, non-string or blank prompt is refused by the one-shot and HTML functions with 400 and their own error text, and no call is made |
| Handlers.WebsiteTimely | netlify/functions/generate-website.js:181-318 | a call settling within 30 s decides the answer: its rejection gets the generation classifier's (Classify.ClassifyGeneration) status, error, details and type; a failing `text()` gives 500 "Failed to extract generated content"; a text gives 200 with the fence-stripped page, its title or "Generated Website", its description or "AI-generated website", and the prompt |
| Handlers.HtmlFirstAttempt | netlify/functions/generate-html.js:143-179 | a first attempt answering within 15 s is the only call; its text is served fence-stripped with its title or the default, and a failing `text()` is the step's failure |
| Handlers.HtmlBothFail | netlify/functions/generate-html.js:4-20 | when both attempts fail the step fails with the second attempt's error, after two calls |
| Handlers.StepTimely | netlify/functions/generate-styles.js:142-207 | a step call settling before its deadline decides the answer: a rejection or failing `text()` is the step's failure after one call, a text is 200 with the step's payload built from the fence-stripped page |
| Handlers.StepFallbacks | netlify/functions/generate-functionality.js:161-165 | without page metadata, the request's truthy title and the functionality step's description are kept, and the styling step's description is fixed |
| Server.AllowedOrigins | server/index.js:24-32 | the seven local origins when the setting is unset or empty; otherwise comma-free pieces that join back to the setting |
| Server.OriginsRoundTrip | server/index.js:24 | a comma-free origin list written with commas splits back into the same list |
| Server.HandleGenerate | server/index.js:49-214 | at most one call, made exactly when the body, prompt, key and model are all good; 400 exactly for a missing or blank string prompt; 200 comes only from a resolved call with a string prompt and carries the split-cleaned page, its title or "Generated Website" (Metadata.ServerTitleOrDefault), its description or the prompt-naming default (Metadata.ServerDescriptionOrDefault), and the request's prompt |
| Server.PromptBeforeKey | server/index.js:57-67 | a blank prompt is refused with 400 even without a key |
| Server.NonStringPromptIs500 | server/index.js:57-61 | a truthy non-string prompt makes `trim` throw, which gives the generic 500 |
| Server.ServedPage | server/index.js:181-206 | the served page is the split clean-up of the text, and fence-free text is served as it came |
| Server.DescriptionNamesPrompt | server/index.js:194-195 | without a description tag, the description names the prompt |
| Generator.ToastFor | src/pages/Generator.tsx:47-80 | every failure toast is destructive: 502 timeout or unavailable by error type, 429 wait, 500 overloaded or internal by message, otherwise the error's message |
| Generator.HandleGenerate | src/pages/Generator.tsx:18-84 | a blank prompt only shows the error toast; otherwise the API is called, generation always ends, and a site is shown exactly on a successful answer with data, alongside the success toast; a thrown value gets the catch block's toast for it (Generator.ToastFor), and an unsuccessful answer the toast for an Error carrying its error text or "Failed to generate website" |
| Generator.ClientErrorsShowTheirMessage | src/pages/Generator.tsx:41-73 | an error without a status, including the page's own rethrow, shows 'Generation Failed' with its message |
| Generator.BlankPromptNoCall | src/pages/Generator.tsx:19-26 | a blank prompt leaves the page alone and makes no call |
| Generator.ReplaceNonAlnum | src/pages/Generator.tsx:94 | every UTF-16 code unit becomes an ASCII letter, a digit or '_' |
| Generator.Stem | src/pages/Generator.tsx:94 | the stem has one character per UTF-16 code unit of the title, each a lower-case letter, a digit or '_' |
| Generator.ExportFilename | src/pages/Generator.tsx:94 | the name is a sanitised stem followed by ".html" |
| Generator.StemIdempotent | src/pages/Generator.tsx:94 | sanitising a sanitised stem changes nothing |
| Generator.StemPositions | src/pages/Generator.tsx:94 | for a title in the Basic Multilingual Plane, each ASCII letter or digit is kept lower-cased in place, and everything else becomes '_' |
| Preview.SafeHtml | src/components/PreviewSection.tsx:74-123 | an empty page stays empty, and a page with none of the rewritten constructs is returned unchanged |
| Preview.InertUnchanged | src/components/PreviewSection.tsx:79-120 | no pass changes a page with none of the rewritten constructs |
| Preview.FormTagReplaced | src/components/PreviewSection.tsx:82 | the first `<form…>` tag is replaced by the non-submitting form tag, and the rest is rewritten the same way |
| Preview.BodyGuardFirst | src/components/PreviewSection.tsx:91-118 | the guard script goes right after the first `<body…>` tag, whose attributes are kept; later text is untouched |
| Preview.HeadBaseFirst | src/components/PreviewSection.tsx:120 | the first `<head>` gains a `javascript:void(0)` base tag; later text is untouched |
| Preview.OpenRewritten | src/components/PreviewSection.tsx:89 | `window.open (` is commented out, and the rest is rewritten the same way |
| Preview.BaseRemovalLeavesTag | src/components/PreviewSection.tsx:80 | a single removal pass turns "<ba<base>se>" into a base tag that matches |
| Preview.StripBase | src/components/PreviewSection.tsx:80 | repeated removal leaves no base tag, never lengthens the page, and leaves a page without one unchanged |
| Preview.SafeHtmlCorrected | src/components/PreviewSection.tsx:74-123 | the corrected neutraliser keeps the empty and inert cases, and its output of the base step holds no base tag |
| Preview.StripBaseRemovesJoinedTag | src/components/PreviewSection.tsx:80 | repeated removal deletes the joined tag entirely |
| Preview.NextStep | src/components/PreviewSection.tsx:48-56 | the step advances by one until the last of the six messages, and then stays there |
| Preview.StepAfterTicks | src/components/PreviewSection.tsx:22-29 | after n ticks the step is min(n, 5), always a valid message index |
| Theme.InitialDark | src/components/Header.tsx:10-12 | a saved 'dark' means dark, any other saved value means light, and no saved value follows the system preference |
| Theme.Init | src/components/Header.tsx:8-15 | on load, the dark class matches the decision and storage is only read |
| Theme.Toggle | src/components/Header.tsx:17-22 | the theme flips, the class follows, and storage holds 'dark' or 'light' to match |
| Theme.ToggleTwice | src/components/Header.tsx:17-22 | two toggles restore the theme and the class |
| Theme.ToggleTimesConsistent | src/components/Header.tsx:8-22 | after a load and n toggles, the class matches, and the theme is the initial one flipped n times |
| Theme.ReloadKeepsToggle | src/components/Header.tsx:8-22 | reloading after a toggle restores the toggled theme, whatever the system prefers |

## Left out

- Metadata.ServerDescriptionRoundTrip: stated only for descriptions that do not end in `=`. For one that ends in `content=`, a later `"` in the page changes the capture (Metadata.ServerDescriptionLaterContent), so no unconditional round trip holds.
- The Gemini SDK (`GoogleGenerativeAI`, `getGenerativeModel`, `generateContent`) is not modelled. Its setup errors and call outcomes are parameters of each handler.
- Real timers and `Promise.race` are not modelled. A promise is its settle time. When the promise settles at the same moment as the timer, the model counts a timeout.
- The prompt templates sent to the model are left out. They affect only the model's text, which is a parameter.
- Logging (`console.log`/`console.error`) is left out. The only exception is the `prompt.substring` call in the step functions: it throws for a non-string prompt, so it is modelled.
- `src/lib/api.ts` is not part of this model. It throws a plain `Error` with no `status`, so the page's 502/429/500 toasts can only be reached from a thrown value that carries one. `Generator.ToastFor` still models all of them.
- Classify.ClassifyUnexpected: the one-shot function's outer catch (generate-website.js:298) is reached in two ways in the source. The first is a rejection that carries no string `message`: the inner catch at line 196 then throws on `.includes`. (The catch at line 246 would too, but it never fires: see Handlers.ResponseGuardNeverFires.) The second is a `text()` result that is not a string but has `.length` and `.includes`, such as an array: it then throws on `.replace` at line 274. Other non-string results throw inside the `try` at lines 254-259 and are answered with a 500 by the catch at line 260. The model's errors always carry a string message and `text()` always yields a string, so these paths do not arise. This classifier is therefore stated on its own and not reached from Handlers.GenerateWebsite.
- Js.JsError: rejections and thrown values are modelled as Error objects with a string `message`; rejections with non-Error values and non-string `text()` results are not modelled.
- The Express middleware (cors, `express.json`, static files) is left out. Whether a null body reaches the route depends on the body parser. The model's `JsonNull` answers with the 500 that destructuring would throw.
- The health, debug and test endpoints are left out, because they are not part of generation. One of them embeds a credential, which is not reproduced.
- Async.Retry models the back-off with exact `real` arithmetic, not IEEE doubles.
- The preview's progress bar and iframe handling, `handleExport`'s Blob and DOM work, `handlePreview` and `handleShare` are left out. They only move data into the browser.
- The header's scroll handling is left out.
- The `generatedAt` timestamps of the responses are left out, because they come from the clock.
- Preview.SafeHtml: the anchor and `location` passes are stated only through the inert case, with no lemma of their own for a page that contains them. The inert case excludes every `<a` and so also pages with `<abbr>`, `<article>`, `<aside>` or `<a name=…>`, which the source leaves unchanged; those are outside the inert case of Preview.SafeHtml.
- Cleanup.SplitFencesExtractsBlock: the Express clean-up does not return exactly the block body in every case. It requires the body not to end with a backtick and the text after the fence not to start with one. Cleanup.SplitFencesTrailingBacktick and Cleanup.SplitFencesBacktickAfterFence show what happens otherwise.
- Generator.Stem: `toLowerCase` is modelled on ASCII letters only. After the replacement, the stem holds nothing else.

## Findings

| source | as written | input that shows it | evidently intended | confidence | as-written member | corrected member |
|---|---|---|---|---|---|---|
| src/components/PreviewSection.tsx:80 | one global pass of `/<base[^>]*>/gi` removes each base tag it finds, and joins the text on either side | "<ba<base>se>" becomes "<base>", a base tag that survives into the preview | no base tag remains in the neutralised page | not executed | Preview.BaseRemovalLeavesTag | Preview.StripBase |
