# phisher.ai front end and proxy, modelled in Dafny

phisher.ai is a web form that takes an email's subject and body and sends them, HTML-escaped, to a proxy route. The route forwards them to a remote scoring service and relays its phishing score and verdict back. This project models the logic of three source files and proves properties of that model:

- `lib/utils.ts` (modules `Sanitizer` and `Words`): `sanitizeInput` is the function `Sanitizer.SanitizeInput`: the five global replaces in the source's order. `countWords` is the function `Words.CountWords`: `trim`, then `split(/\s+/)`, then `filter(Boolean)`, then `length`. Both sit over `seq<char>` with the ECMAScript whitespace set.
- `components/email-analyzer.tsx` (module `Analyzer`): the derived validity predicates, the validation message precedence, the request body built from the fields, and the two render conditions are pure functions. The component's state (`emailSubject`, `emailText`, `isAnalyzing`, `result`, `error`) is the class `EmailAnalyzer`. `handleSubmit` is the method `Submit`, together with its two halves around the awaited `fetch`: `BeginSubmit` and `FinishSubmit`.
- `app/api/analyze/route.ts` (module `AnalyzeRoute`): `POST` is the function `AnalyzeRoute.Post` of the parsed request and the outcome of the single upstream call. It returns the body it forwarded (if any) and the response, which `AnalyzeRoute.Relay` chooses from what the upstream call delivered.
- Module `Js` models the JavaScript values both sides handle. It covers parsed JSON, truthiness, property reads (reading `null.x` throws a TypeError, a missing property reads as `undefined`), string length in UTF-16 code units, and the outcome of an awaited `fetch` (rejected, or a status with a body whose `json()` resolves or rejects).
- Module `Flow` connects the two sides. Every request the form sends passes the route's check and is forwarded unchanged. The form ends up showing exactly the `error` field of the route's envelope, or storing the relayed body.

The client's `result` and `error` state hold JSON values, not just the TypeScript types: the code sets `error` to `errorData.error`, which can be any truthy JSON value.

Behaviour of the code worth knowing:
- On a failed request the code keeps the previous `result`; only setting `error` hides the panel.
- When the route cannot reach the scoring service, the form shows the route's message "Internal server error", because that envelope's `error` field is truthy. The form shows its own generic message only when its own `fetch` or `json()` fails.
- The route returns 500 when the request body is JSON `null`, because destructuring `null` throws. It returns 500 when the upstream error body is `null`, because reading `null.error` throws. It returns 500 when the upstream status is one the Response constructor rejects: a status outside 200–599, or 304 with a body.

## Model

| member | source | states |
|---|---|---|
| `Sanitizer.ReplaceAll` | lib/utils.ts:15-19 | one `.replace(/c/g, rep)`: when `rep` does not contain `c`, no `c` is left in the result, and an input without `c` is returned unchanged |
| `Sanitizer.SanitizeIsEscape` | lib/utils.ts:14-19 | the five sequential replaces equal one left-to-right per-character escape map (this holds because `&` is replaced first) |
| `Sanitizer.NoRawMarkup` | lib/utils.ts:16-19 | the output holds no `<`, `>`, `"` or `'` |
| `Sanitizer.AmpersandsStartEntities` | lib/utils.ts:15-19 | every `&` in the output begins one of `&amp;`, `&lt;`, `&gt;`, `&quot;`, `&#039;`, so no entity is escaped twice |
| `Sanitizer.RoundTrip` | lib/utils.ts:12-20 | decoding the five entities left to right gives the input back |
| `Sanitizer.SanitizeLength` | lib/utils.ts:15-19 | the output length is the input length plus 4 per `&`, 3 per `<` or `>`, and 5 per `"` or `'` |
| `Sanitizer.FixedPointIff` | lib/utils.ts:14-19 | a string is left unchanged if and only if it contains none of the five characters |
| `Sanitizer.IdempotentIff` | lib/utils.ts:15 | sanitizing twice equals sanitizing once if and only if the input has none of the five characters |
| `Sanitizer.DoubleEscapeExample` | lib/utils.ts:15 | `"&"` becomes `"&amp;"`, and sanitizing that again gives `"&amp;amp;"` |
| `Words.WsPrefix` | lib/utils.ts:26 | the leading whitespace that `trim` removes and that `\s+` matches is maximal: all whitespace, followed by a non-whitespace character or the end |
| `Words.WsSuffix` | lib/utils.ts:26 | the trailing whitespace that `trim` removes is maximal |
| `Words.NonEmptySplitCountsRuns` | lib/utils.ts:26 | the number of non-empty pieces of `split(/\s+/)` is the number of maximal non-whitespace runs |
| `Words.RunsTrim` | lib/utils.ts:26 | `trim` does not change the number of runs |
| `Words.CountWordsIsRuns` | lib/utils.ts:25-27 | `countWords(s)` is the number of maximal non-whitespace runs of `s` |
| `Words.CountWordsZeroIff` | lib/utils.ts:25-27 | `countWords(s) == 0` if and only if `s` is empty or all whitespace |
| `Words.CountWordsPadding` | lib/utils.ts:26 | adding leading or trailing whitespace does not change the count |
| `Words.CountWordsExamples` | lib/utils.ts:25-27 | `""` and `"   "` have 0 words and `"a b  c"` has 3 |
| `Js.Utf16Length` | components/email-analyzer.tsx:24-28 | `.length` counts UTF-16 code units: between one and two per character, and 0 only for `""` |
| `Analyzer.IsValidSubjectIff` | components/email-analyzer.tsx:24-26 | `isValidSubject` holds if and only if the subject is at most 100 code units long |
| `Analyzer.IsValidInputIff` | components/email-analyzer.tsx:23-28 | `isValidInput` holds if and only if the text has at least 10 code units, the text has at most 2000 maximal non-whitespace runs, and the subject has at most 100 code units |
| `Analyzer.ValidationMessage` | components/email-analyzer.tsx:35-41 | for invalid input, exactly one message is chosen: text too short first, else too many words, else subject too long, each if and only if its condition is the first that fails |
| `Analyzer.OutcomeError` | components/email-analyzer.tsx:71-83 | after the await, the error set is always truthy. It is left unset exactly when the response is ok and its body parses. For a non-ok response whose body parses and has a truthy `error` field, that field is the error; any other message than the generic one is such a field |
| `Analyzer.OutcomeResult` | components/email-analyzer.tsx:79-80 | a result is stored exactly when no error is set, and it is the body of the ok response |
| `Analyzer.NeverResultAndError` | components/email-analyzer.tsx:134-142 | the result panel and the error alert are never rendered together |
| `Analyzer.SubmitDisabledIff` | components/email-analyzer.tsx:121 | the button is disabled if and only if a request is in flight or one of the three validation rules fails |
| `Analyzer.EmailAnalyzer.ErrorShownIffSet` | components/email-analyzer.tsx:134-142 | in every reachable state, the alert's `error &&` and the panel's `!error` both test `error != null` |
| `Analyzer.EmailAnalyzer.constructor` | components/email-analyzer.tsx:12-21 | the initial state: empty fields, not analyzing, `result` and `error` null |
| `Analyzer.EmailAnalyzer.UpdateSubject` | components/email-analyzer.tsx:95-100 | editing the subject changes only the subject |
| `Analyzer.EmailAnalyzer.UpdateText` | components/email-analyzer.tsx:107 | editing the text changes only the text |
| `Analyzer.EmailAnalyzer.BeginSubmit` | components/email-analyzer.tsx:30-69 | the error is cleared. Invalid input makes no request, leaves `isAnalyzing` and `result` alone, and sets exactly the precedence message. Valid input sets the in-flight flag (which disables the button) and builds `{text: sanitize(text), subject: subject ? sanitize(subject) : null}` |
| `Analyzer.EmailAnalyzer.FinishSubmit` | components/email-analyzer.tsx:71-86 | the error and the result become what `OutcomeError` and `OutcomeResult` say, otherwise unchanged. `isAnalyzing` is false afterwards. After a failure, the alert is shown and the result panel is not |
| `Analyzer.EmailAnalyzer.Submit` | components/email-analyzer.tsx:30-87 | the whole submit. A request is made if and only if the input is valid. After a valid submit, `isAnalyzing` is false, the error is null on success, and the result panel shows exactly when a truthy result arrived |
| `AnalyzeRoute.MalformedRequest` | app/api/analyze/route.ts:7-8 | a body that is not JSON, or is `null`, gets the 500 envelope and no upstream call |
| `AnalyzeRoute.InvalidTextRejected` | app/api/analyze/route.ts:10-13 | a falsy or non-string `text` gets 400 `{error: "Invalid input"}` and no upstream call |
| `AnalyzeRoute.ForwardedIff` | app/api/analyze/route.ts:11-25 | one upstream call is made if and only if `text` is a non-empty string. Its body carries `text` and `subject` exactly as received, with an absent `subject` kept absent and `null` kept `null` |
| `AnalyzeRoute.NoCallIgnoresUpstream` | app/api/analyze/route.ts:11-13 | when no call is made, the upstream outcome has no influence on the response |
| `AnalyzeRoute.UpstreamErrorRelayed` | app/api/analyze/route.ts:28-34 | a non-ok upstream response keeps its status and gets `{error: upstream.error}` if that field is truthy, else `{error: "Error from backend"}` |
| `AnalyzeRoute.UpstreamResultRelayed` | app/api/analyze/route.ts:36-37 | an ok upstream body is relayed unchanged with status 200 |
| `AnalyzeRoute.UpstreamFailures` | app/api/analyze/route.ts:28-44 | each of these gets 500 `{error: "Internal server error"}`: a network failure, an unparseable body on either path, a `null` error body, or a status the Response constructor rejects |
| `AnalyzeRoute.ResponsesAreResultsOrEnvelopes` | app/api/analyze/route.ts:7-44 | every response is either a relayed ok body with status 200 or an envelope with exactly the single field `error`. Status 200 occurs if and only if an ok upstream body was relayed |
| `AnalyzeRoute.RouteExamples` | app/api/analyze/route.ts:11-44 | `{}` gets 400. An upstream 503 `{error: "rate limited"}` is relayed as is. A network failure gets 500 |
| `Flow.ClientRequestForwarded` | app/api/analyze/route.ts:8-24 | a request from a valid form always passes the route's check and is forwarded unchanged (with `subject: null` for an empty subject) |
| `Flow.ClientShowsRouteResponse` | components/email-analyzer.tsx:71-80 | for every route response, the form stores the body (status 200) or shows exactly the envelope's `error` field |
| `Flow.UpstreamNetworkFailureShown` | app/api/analyze/route.ts:38-44 | a network failure behind the route reaches the form as "Internal server error" |
| `Flow.UpstreamResultShown` | app/api/analyze/route.ts:36-37 | an ok answer of the scoring service reaches the form as its result |

## Left out

- `cn` in lib/utils.ts: a wrapper over the clsx and tailwind-merge libraries.
- flask-backend/app.py and flask-backend/train_model.py: the scoring service itself. It is an OpenAI chat call, a pickled scikit-learn model, floating-point confidence, and model training with file I/O. The model treats it as the opaque upstream outcome.
- app/page.tsx, app/layout.tsx, components/ui/FloatingCircle.tsx: static composition with no logic.
- Transport: HTTP, the fixed upstream URL, the request headers, and JSON serialisation are modelled only through their outcomes. The forwarded body is a JSON value, not its text; key order is not modelled.
- JSON numbers are reals. IEEE doubles, and `-0` as a falsy number, are not modelled.
- `Js.Property` sees an object's own fields only. The keys the source reads (`text`, `subject`, `error`) are not inherited properties of any built-in prototype.
- Strings are sequences of Unicode scalar values. A lone surrogate, which a JavaScript string may hold, cannot be represented.
- Console logging, `e.preventDefault()`, the loading spinner, the red colouring of the word counter (email-analyzer.tsx:115), and all rendering beyond the error alert, the result panel, and the button's disabled state.
- React's state scheduling: each `set…` call is modelled as an immediate field update. This is faithful here because `handleSubmit` only reads the values captured at render time and sets absolute values.
- Concurrency: the in-flight flag is advisory. `BeginSubmit` may be called again while a request is outstanding, as the component allows. Interleavings of several outstanding requests are not analysed.
