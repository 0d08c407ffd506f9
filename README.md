# Save-card-info gateway: request decision and template substitution

This project models the core of a small Express gateway (`server.js`). The
gateway serves `GET /saveCardInfo/:sessionId`. It asks an internal payment
API for the session's data and renders one of two HTML templates: the payment
form, or an error page. The model covers two parts, both proved in Dafny.

- **The substitution engine** (`renderTemplate`). The template text is read.
  Then, for each context entry in order, every `{{key}}` token in the current
  text is replaced by the value's text. A value of object type (an object, an
  array or `null`) goes in as its JSON text. Any other value goes in as it
  converts to a string. Any failure becomes the single error
  `Template rendering failed`. The function `Templates.Render` is a fold over
  the entries. The method `Templates.RenderTemplate` is the loop itself, and it
  is proved equal to the fold. `Text.ReplaceAll` is literal global
  replacement.
- **The request decision** (the route handler and its two context builders).
  The upstream reply is a datatype. It is either a connection error, or a
  status code with a body that parsed or did not. The reply gives the session
  data or an error message (`Route.SessionData`). The status check comes
  first, then the parse, then the `success` flag. `Route.Decide` then picks the
  page, its context and its status code (200 or 500). `Route.Respond` renders
  the page. A form that fails to render turns into the error page with status
  500.

Library calls the model does not define are parameters: `JSON.stringify`
and number-to-text conversion (`JsValues.Runtime`), the template files
(`Templates.Document`, with an `Unavailable` case) and the environment
variables (`Route.Config`).

Five behaviours of the code are easy to expect otherwise. The model follows
the code in each:
- Entries are substituted one after another, each on the output of the one
  before, not against one snapshot of the template. So a value that contains a
  later key's token gets that token replaced too (`Templates.RenderIsSequential`).
- The `success` flag is tested for truthiness (`!sessionData.success`), not
  compared with `true`.
- A connection failure puts the socket error's own message on the error page,
  not a generic transport message.
- When the error template itself cannot be read, the handler sends no
  fallback body. The exception escapes the `catch` block and the handler's
  promise is rejected (`Route.Response.Unanswered`). What the framework then
  does is listed under "Left out".
- `String(message)` in the error text can itself throw: a `message` object
  with an own `toString` key (or an array holding one) cannot be converted
  to a primitive, and the page shows that `TypeError`'s message instead
  (`JsValues.ToText`, `Route.FalsySuccessIsApplicationError`).

## Model

| member | source | states |
|---|---|---|
| `Route.IsOk` | server.js:38 | a response is ok exactly when its status is in the 2xx class (status / 100 == 2), i.e. 200 <= status < 300 |
| `Route.SessionData` | server.js:82-108 | a connection error gives its message; a non-ok status gives "Internal API error: <status>" before the body is looked at; a body that does not parse gives the parser's message; a `null` body with any ok status gives V8's TypeError message; data is returned only for an ok reply whose body is an object with a truthy `success` |
| `Route.Decide` | server.js:97-116 | the payment form is chosen exactly when the session data was obtained; the form goes out with 200 and the error page with 500 |
| `Route.NotOkIsStatusError` | server.js:97-99 | a non-ok reply becomes the error page with "Internal API error: " + status, and the body (so the `success` flag) makes no difference |
| `Route.StatusErrorNamesStatus` | server.js:98 | the status code can be read back from the error message: it is the decimal text after the fixed prefix |
| `Route.FalsySuccessIsApplicationError` | server.js:106-108 | an ok reply with a falsy `success` becomes the error page with "Internal API returned error: " + String(message), or with "Cannot convert object to primitive value" when the message cannot be converted; a body that is not an object gives "... undefined" |
| `Route.NullBodyIsTypeError` | server.js:101-106 | an ok reply whose body is `null` becomes the error page with the TypeError message for reading `success` |
| `Route.TruthySuccessIsForm` | server.js:106-111 | an ok reply with a truthy `success` renders the payment form with status 200 and exactly the context SESSION_DATA = data, PUBLIC_KEY = configured key, ENVIRONMENT = "production" iff NODE_ENV is "production" else "sandbox"; the session id does not change the page |
| `Route.StatusError` | server.js:98 | the message is "Internal API error: " followed by nothing but decimal digits (read back by `Route.StatusErrorNamesStatus`) |
| `Route.ApplicationError` | server.js:107 | the message is "Internal API returned error: " followed by exactly the converted text, which can be read back after the prefix |
| `Route.FormPage` | server.js:140-148 | the form goes out with status 200 and three keys without `{`, in the order of the object literal: SESSION_DATA with the data, PUBLIC_KEY with the key's value, ENVIRONMENT with the tag |
| `Route.ErrorPage` | server.js:152-156 | the error page goes out with status 500 (line 115) and the single key ERROR_MESSAGE, without `{`, holding the message as a string |
| `Route.Respond` | server.js:111-115 | a readable template is rendered with the page's context and sent with the page's status; an unreadable form becomes the rendered error page with "Template rendering failed" and 500, or nothing when that template is unreadable too; an unreadable error template sends nothing; `JSON.stringify` and `replace` are taken as never failing (see "Left out") |
| `Route.Handle` | server.js:77-117 | the handler sends 200 or 500, and 200 only when the session data was obtained (the full account is `Route.ResponseStatus`) |
| `Route.Environment` | server.js:142 | the tag is "production" exactly when NODE_ENV is "production", and "sandbox" otherwise |
| `Route.SettingValue` | server.js:141 | an unset environment variable is `undefined`, and a set one is its string |
| `Route.ResponseStatus` | server.js:111-116 | the handler sends 200 or 500; 200 exactly when the session data was obtained and the form could be rendered; it sends nothing exactly when the error page was needed and its template cannot be read |
| `Route.FormFailureIsErrorPage` | server.js:113-115 | on the success path a form that cannot be rendered becomes the error page carrying "Template rendering failed" |
| `Route.ErrorBodyShowsMessage` | server.js:152-156 | with an error template holding one ERROR_MESSAGE token, every failed request gets 500 and the template with the error's message in place of the token |
| `Route.FormBodyShowsValues` | server.js:140-148 | with a form holding each of its three tokens once, the 200 body is the form with the data's JSON text, the key and the environment tag in place of the tokens, as long as no pass meets its token anywhere else |
| `JsValues.GetProperty` | server.js:106-107 | reading a property throws exactly for `undefined` and `null`, with V8's message naming the value and the key; an object gives its own field, or `undefined` when it has none; any other value gives `undefined` |
| `JsValues.ToText` | server.js:107 | `String(v)` throws exactly for an object with an own `toString` key, or an array holding one at any depth, always with "Cannot convert object to primitive value"; a string converts to itself and any other object to "[object Object]" |
| `JsValues.FirstThrow` | server.js:107 | the elements' texts in order when none throws, and otherwise the exception of the first element that throws, as `Array.prototype.join` inside `String(array)` behaves |
| `JsValues.Truthy` | server.js:106 | `!sessionData.success` is false exactly for a truthy flag; specified through `Route.FalsySuccessIsApplicationError` and `Route.TruthySuccessIsForm`, which cover each side |
| `JsValues.DecimalText` | server.js:98 | `${status}` is one or more decimal digits with no leading zero |
| `JsValues.DecimalRoundTrip` | server.js:98 | reading the decimal text of n back gives n |
| `JsValues.DecimalTextInjective` | server.js:98 | different status codes give different messages |
| `Templates.ReplacementText` | server.js:128 | a string value is substituted as it is, `undefined` as "undefined", and an object-typed value as its JSON text |
| `Templates.TokenBorderFree` | server.js:127 | a `{{key}}` token whose key has no `{` cannot overlap another occurrence of itself |
| `Templates.RenderDocument` | server.js:120-137 | rendering succeeds exactly when the template can be read; every failure is the one error "Template rendering failed"; `JSON.stringify` and `replace` are taken as never failing (see "Left out") |
| `Templates.RenderTemplate` | server.js:120-137 | the loop over the entries computes exactly the fold `Render` over the entries, or the rendering error |
| `Templates.Substitute` | server.js:127-129 | one pass of the loop; specified by `Templates.SubstituteLone` (a lone token is replaced, the rest kept) and `Text.ReplaceAllJoin` |
| `Templates.Render` | server.js:123-130 | the fold of the passes over the entries; specified by `Templates.RenderTemplate` (the loop computes it), `Templates.RenderAppend`, `Templates.RenderUntouched` and `Templates.RenderLoneToken` |
| `Templates.RenderAsWritten` | server.js:123-130 | the passes through JavaScript's `replace`; specified by `Templates.RenderAsWrittenLiteral` (equal to `Render` without `$` in any value) and `Templates.DollarInValueExpands` (different with `$'`) |
| `Templates.RenderAppend` | server.js:126-130 | entries are applied in order, each to the output of the passes before it |
| `Templates.RenderUntouched` | server.js:123-132 | a template with no token for any context key, or any template with an empty context, comes back unchanged |
| `Templates.SubstituteLone` | server.js:127-129 | one pass on a text holding the key's token once puts the value's text in its place and keeps the rest |
| `Templates.RenderLoneToken` | server.js:126-130 | a token that occurs once is replaced by its value's text, and the rest of the template is kept |
| `Templates.RenderIsSequential` | server.js:126-130 | for any two keys without `{`: when the first entry's value is x + `{{b}}` + y and x, y hold no `{{b}}`, rendering `{{a}}` gives x + the second value's text + y, so the later pass replaces the token the earlier one inserted |
| `Templates.RenderExamples` | server.js:126-130 | `<p>{{X}}</p>` with X = "hello" gives `<p>hello</p>`; with an object value it gives the object's JSON text between the tags |
| `Templates.RenderAsWrittenLiteral` | server.js:129 | when no value's text contains `$`, JavaScript's `replace` and literal replacement give the same page |
| `Templates.DollarInValueExpands` | server.js:129 | as written, a value `$'` turns into the text after the token (`a{{X}}b` gives `abb`), where literal substitution gives `a$'b` |
| `Text.ReplaceAll` | server.js:129 | literal global replacement; specified by `Text.ReplaceAllJoin` and `Text.ReplaceAllAbsent` |
| `Text.ReplaceAllJoin` | server.js:129 | global replacement: in a text made of parts joined by a border-free token, none of which contains it, every occurrence is replaced and the parts are kept |
| `Text.ReplaceAllAbsent` | server.js:129 | replacing a token that does not occur leaves the text unchanged |
| `JsReplace.Expand` | server.js:129 | GetSubstitution without capture groups (`$$`, `$&`, `` $` ``, `$'`); specified by `JsReplace.ExpandLiteral` and `JsReplace.DollarQuoteExpands` |
| `JsReplace.ExpandLiteral` | server.js:129 | a replacement string without `$` is inserted as it is, whatever the match and its surroundings |
| `JsReplace.ReplaceGlobal` | server.js:129 | `replace` with a global pattern; specified by `JsReplace.ReplaceGlobalLiteral` and `JsReplace.DollarQuoteExpands` |
| `JsReplace.ReplaceGlobalLiteral` | server.js:129 | `replace` with a global pattern equals literal global replacement when the replacement has no `$` |
| `JsReplace.DollarQuoteExpands` | server.js:129 | `replace` expands `$'` in the replacement to the text after the match |

## Left out

- The HTTP client (`fetchReplacement`, server.js:15-57) is not part of this model, except for its `ok` rule. The reply reaches the model as a value. Socket I/O, chunk assembly and promises are left out.
- The request sent upstream (URL, method, headers, credentials, and the JSON body with the session id) is not modelled. Only the reply it produces is.
- `JSON.parse`, `JSON.stringify` and JavaScript's number-to-text conversion are parameters. Numbers are reals, and rounding to doubles is not modelled.
- A JSON number too large for a double (`1e400`) parses to Infinity, which `String` writes as "Infinity" and `JSON.stringify` as "null". `JsValues.Value` has no infinite number, so such a body is not modelled.
- `JsValues.Value` holds an object's fields as a map, so the order of its keys is lost: `{"a":1,"b":2}` and `{"b":2,"a":1}` are one value. `JSON.stringify` writes the keys in the order `JSON.parse` created them, so the two give different texts in SESSION_DATA. `Templates.ReplacementText` and `Route.FormBodyShowsValues` therefore state "the data's JSON text" as a text that does not depend on the upstream key order, which the real `stringify` is not.
- Strings are sequences of Dafny characters, which cannot hold the lone surrogates `JSON.parse` produces from an escape such as `"\ud800"`. Such strings are not modelled.
- `fs.readFileSync` is replaced by a template value that may be `Unavailable`. Character decoding is not modelled.
- Express setup, CORS, static files, `express.json`, `app.listen`, response headers and all console logging are left out. They are plumbing with no logic.
- `Route.ResponseStatus`: `res.send` adds an ETag and answers a conditional GET whose `If-None-Match` matches it with 304 and no body. The model gives the status the handler sets (200 or 500), not that framework rewrite.
- Keys are matched as literal text. The real code builds a regular expression from `{{key}}`. That is the same for the four keys the route uses, which hold no regular-expression syntax, but it is not modelled for other keys.
- `Templates.RenderDocument` and `Route.Respond` take `JSON.stringify` and `replace` as never failing, so in the model rendering fails only when the file cannot be read. With the route's keys, building the pattern cannot throw. But `JSON.stringify` throws a RangeError on very deeply nested data, which `JSON.parse` accepts, and `replace` throws one when its result would exceed the engine's maximum string length. The code then sends the error page with "Template rendering failed" and 500, where the model sends the rendered form with 200.
- `Route.Response.Unanswered` only records that the handler sends nothing when the error template cannot be read and its promise is rejected. What follows depends on the Express major version, which the code does not fix: Express 4 ignores the rejected promise, and Node 15 or later then ends the process on the unhandled rejection; Express 5 passes it to its default error handler, which sends a 500. Neither is modelled.
- `JsValues.GetProperty` returns `undefined` for every key on a non-object value. That is right for `success`, `message` and `data`, the only keys the route reads. It does not model properties inherited from built-in prototypes.
- `Route.Handle`, `Route.ErrorBodyShowsMessage` and `Route.FormBodyShowsValues` render with the literal renderer `Templates.Render`, not with `Templates.RenderAsWritten`. A `$&`, `` $` ``, `$'` or `$$` in the error message or in the session data's JSON text is expanded by the code as written (see "Findings"). Where no value's text contains `$`, `Templates.RenderAsWrittenLiteral` shows that the two agree.
- `Route.FormBodyShowsValues` states the 200 body only for a form that holds each token once, in context order, with no token of a later key produced by an earlier pass. Other forms are covered by `Templates.Render` and its lemmas.

## Findings

| source | as written | input that shows it | evidently intended | confidence | as-written member | corrected member |
|---|---|---|---|---|---|---|
| server.js:129 | `rendered.replace(new RegExp(placeholder, 'g'), replacement)` treats `$$`, `$&`, `` $` `` and `$'` in the value as substitution patterns | template `a{{X}}b`, value `$'`: the result is `abb` | the value is inserted as it is: `a$'b` | high (not executed) | `Templates.DollarInValueExpands` | `Templates.RenderLoneToken` |

Values that reach this call come from the upstream API: the session data and
the `message` in the error text. `Templates.RenderAsWritten` models the call
as written, through `JsReplace.ReplaceGlobal`. `Templates.Render` is the
literal substitution that the code's comment ("Replace template variables")
and the `{{key}}` placeholder scheme call for, and the route model uses it. `Templates.RenderAsWrittenLiteral` proves that the two
agree whenever no value's text contains `$`.
