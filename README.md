# mathyd: the `PUT /` pipeline

mathyd is a small Express server (`app.js`) that renders TeX to SVG with MathJax.
A client sends `PUT /` with a JSON body such as `{"type": "svg", "tex": "x=1"}`
and the hex-encoded HMAC-SHA-256 of the raw body in the `x-mathyd-hmac-sha256`
header. This project models, as pure Dafny functions, what happens to one such
request:

- `Integrity` — the `verify` callback of the text body parser (app.js:46-60).
  The digest is computed before the key is checked. So an unset
  `MATHYD_HMAC_KEY` fails inside Node's `crypto`, an empty key fails with
  'hmac key not set', and any header other than the exact lower-case hex digest
  fails with 'hmac mismatch'.
- `RenderRequest` — the route body (app.js:173-207). It parses the body, checks
  `type`, then `tex`, derives the MathJax options with JavaScript `||` and `!`
  semantics, and shapes the response from the engine's outcome.
- `Pipeline` — the whole request. The body parser reads only
  `application/json` bodies. A verify failure goes to the error handler
  (app.js:64-68), which answers 500 with `{error: message}`. An exception
  thrown in the route is never seen by that handler, because it is registered
  before the route. Express's default final handler answers it with its own
  500 page.
- `Packages` — `MATHYD_MATHJAX_PACKAGES || 'base, autoload, require, ams, newcommand'`
  split on `/\s*,\s*/` (app.js:36, 157).
- `JsValues` and `Http` — the JavaScript values the handler inspects
  (truthiness, property reads that throw on `null`) and the response a handler
  leaves behind.

The code is foreign to the model in three places, and each is a parameter:

- Node's HMAC is a function field of `Integrity.Crypto`. Its result type says
  that the digest is 64 lower-case hex digits.
- `JSON.parse` of the decoded body is `Pipeline.Server.parse`. It returns
  `None` where `JSON.parse` would throw.
- MathJax's `tex2svgPromise` followed by `adaptor.innerHTML` is
  `Pipeline.Server.render`. It returns the markup or the rejection value.

The header comment of app.js (lines 19-20) says every error comes back as a JSON
error. The code does otherwise, and the model follows the code:

- the 403 answers are the plain strings 'invalid type' and 'missing tex';
- a body `JSON.parse` rejects gets Express's own 500 page;
- a rendering failure sends the rejection value itself with status 500.

## Model

| member | source | states |
|---|---|---|
| JsValues.Truthy | app.js:185-195 | a value is falsy exactly when it is `undefined`, `null`, `false`, `0` or the empty string, as in JavaScript's truth test used by `!data.tex`, `!data.inline` and the layout defaults at lines 193-195 |
| JsValues.Get | app.js:178-195 | a property read yields something other than `undefined` exactly when the parsed value is an object holding that key with a defined value, and then yields that value |
| Integrity.SuppliedCode | app.js:47 | an absent header and an empty header both become the empty code; any other header is passed through unchanged |
| Integrity.Message | app.js:52-59 | the error message is 'hmac key not set' exactly for the empty key and 'hmac mismatch' exactly for a mismatch; a failure inside crypto carries crypto's own message |
| Integrity.Verify | app.js:46-60 | a body is accepted exactly when the key is set and non-empty and the header equals the HMAC of these bytes; an empty key always fails with 'hmac key not set'; an unset key always fails in crypto; with a usable key every other header is a mismatch |
| Integrity.AbsentHeaderNeverVerifies | app.js:47-58 | a request without the header, or with it empty, is never accepted |
| Integrity.CorrectCodeVerifies | app.js:48-59 | under a non-empty key the digest of the body is always accepted |
| Integrity.EmptyKeyRefusesItsOwnCode | app.js:48-55 | under the empty key even the digest computed with the empty key is refused |
| RenderRequest.Or | app.js:191-195 | `v || d` is `v` when `v` is truthy and `d` otherwise, so it is truthy whenever `d` is |
| RenderRequest.DeriveOptions | app.js:191-196 | display mode is on exactly when `inline` is falsy; the engine never receives a falsy `em`, `ex` or `containerWidth`; a truthy request value passes through unchanged; a falsy or missing one gives 8, 16 or 1024 |
| RenderRequest.Decide | app.js:175-196 | the handler throws exactly when the body does not parse or parses to `null`; 'invalid type' exactly when `type` is not the string "svg"; 'missing tex' exactly when the type is right and `tex` is falsy; otherwise the engine gets `tex` unchanged with the derived options |
| RenderRequest.Respond | app.js:178-207 | 403 exactly for a refused request, with the reason as the body; 200 exactly when the engine produced markup, sent as `{svg}` JSON; a rendering failure is a 500 whose body is the rejection value handed to `res.send`; a thrown handler is Express's 500 page |
| RenderRequest.TypeCheckedBeforeTex | app.js:177-189 | a request failing both checks is reported as 'invalid type' |
| RenderRequest.EmptyObjectIsInvalidType | app.js:178-182 | `{}` is 'invalid type' |
| RenderRequest.ForbiddenNeverRenders | app.js:178-191 | the response to a request that is not rendered does not depend on the engine |
| RenderRequest.FalsyLayoutIsAbsent | app.js:193-195 | an explicit falsy `em`, `ex` or `width` gives the same options as leaving the field out |
| RenderRequest.SvgWithoutTex | app.js:185-189 | `{"type":"svg"}` and `{"type":"svg","tex":""}` are both 'missing tex' |
| RenderRequest.PngIsInvalidType | app.js:178-182 | `{"type":"png","tex":"x=1"}` is 'invalid type' |
| RenderRequest.MinimalRequestRenders | app.js:191-196 | `{"type":"svg","tex":"x=1"}` is rendered in display mode with em 8, ex 16 and width 1024 |
| Pipeline.BodyRead | app.js:44-45 | a body is read, and so checked by the verify callback, only when the request is `application/json` and has a body; HandlePut proves that every unread body ends in Express's 500 page without reaching the callback |
| Pipeline.ErrorHandler | app.js:64-68 | every error reaching the handler becomes a 500 `application/json` envelope carrying the error's message; EmptyKeyFailsClosed, AbsentKeyFailsInCrypto and WrongCodeIsMismatch pin that message for each of the three rejections |
| Pipeline.HandlePut | app.js:44-207 | status is 200, 403 or 500; anything but a 500 implies an authentic request; among the modelled failures, the JSON error envelope is sent exactly for an integrity rejection of a read body; an authentic request is answered by the route alone; an unread body ends in Express's 500 page |
| Pipeline.EmptyKeyFailsClosed | app.js:53-68 | with an empty key every read body gets 500 `{error: 'hmac key not set'}` |
| Pipeline.AbsentKeyFailsInCrypto | app.js:48-68 | with the key unset every read body gets 500 with crypto's error message |
| Pipeline.WrongCodeIsMismatch | app.js:57-68 | with a usable key a wrong or absent header gets 500 `{error: 'hmac mismatch'}` |
| Pipeline.RejectionShortCircuits | app.js:44-68 | an inauthentic read body gets a 500 that depends on neither the parser nor the engine |
| Pipeline.SignedEmptyObjectIsInvalidType | app.js:46-182 | `{}` correctly signed under the key 'secret' gets 403 'invalid type' |
| Pipeline.ParseFailureIsNotEnveloped | app.js:64-175 | an authentic body that does not parse gets Express's 500 page, not the error envelope |
| Pipeline.RenderOutcome | app.js:191-207 | for an authentic, renderable request, markup gives 200 with `{svg}` and a rendering failure gives 500 with the error |
| Pipeline.SuccessCameFromEngine | app.js:173-202 | a 200 comes only from an authentic svg request with a truthy tex, and carries the engine's markup for that tex and the derived options |
| Packages.PackageSource | app.js:36 | an unset or empty variable gives the default list, any other value is used as it is; either way the string that is split is never empty |
| Packages.CommaIndexFindsFirstComma | app.js:157 | the cut point is the first comma, with no comma before it |
| Packages.FieldsHaveNoComma | app.js:157 | no field between commas holds a comma |
| Packages.JoinFields | app.js:157 | cutting at the commas loses nothing: joining the fields with commas gives the string back |
| Packages.FieldCount | app.js:157 | there is one field more than there are commas |
| Packages.LeadingSpaceIsMaximalRun | app.js:157 | the leading run of whitespace is all whitespace, index by index, and is maximal |
| Packages.TrailingSpaceIsMaximalRun | app.js:157 | the trailing run of whitespace is all whitespace, index by index, and is maximal |
| Packages.SpaceRunsApart | app.js:157 | the leading and trailing whitespace runs of a string that is not all whitespace do not overlap |
| Packages.TrimFieldCutsSpace | app.js:157 | a trimmed field is the field with a whitespace run cut off each end, nothing cut off the start of the first field or the end of the last |
| Packages.TrimFieldSpec | app.js:157 | trimming adds no comma; a piece before a comma does not end in whitespace; a piece after a comma does not start with it |
| Packages.Split | app.js:157 | `s.split(/\s*,\s*/)`: one piece per comma-separated field; SplitSpec and SplitTrimsFields together fix each piece as its field with the whitespace next to each comma removed, and OuterSpaceKept shows the outer whitespace kept |
| Packages.SplitSpec | app.js:157 | the split gives one piece per field, none holding a comma, and none keeping whitespace next to a comma |
| Packages.SplitTrimsFields | app.js:157 | every piece is its comma-separated field with only whitespace removed, and only at the ends that touch a comma; with SplitSpec this fixes each piece exactly |
| Packages.FieldsHaveNoSpace | app.js:157 | the fields of a string without whitespace have none either |
| Packages.SplitJoin | app.js:157 | without whitespace the split is the plain cut at commas, and joining its pieces with commas gives the string back |
| Packages.PackageList | app.js:36-157 | the package list MathJax is configured with is the split of the variable or of the default, and is never empty; DefaultPackageList gives it exactly for an unset or empty variable |
| Packages.PackageListHasNoCommas | app.js:157 | whatever the environment holds, MathJax gets at least one package name and none holds a comma |
| Packages.DefaultPackageList | app.js:36 | with the variable unset or empty, MathJax gets exactly base, autoload, require, ams and newcommand, in that order |
| Packages.OuterSpaceKept | app.js:157 | for every string, the first piece begins with the first field's leading whitespace and the last piece ends with the last field's trailing whitespace, unless that field is all whitespace |
| Packages.OuterSpaceExample | app.js:157 | `" base, ams "` splits into `" base"` and `"ams "` |

## Left out

- Express itself: routing, `GET /` and its help page, `app.listen`, the parsing of
  `MATHYD_PORT`, and header lookup. A request is reduced to its content type,
  its HMAC header and its body.
- Logging with `console.log` and `console.error`: it does not affect responses.
- The HMAC-SHA-256 computation, charset decoding and `JSON.parse`. These are
  foreign code and are passed in as functions.
- MathJax: its initialisation, its configuration other than the package list,
  and rendering. Rendering is a function parameter. Whether the package names
  are valid MathJax packages is not modelled.
- Promise scheduling and concurrent requests. Each request is a single pure
  computation.
- Timing: the header is compared with ordinary string equality, as in the code.
  Whether that comparison leaks timing is outside a functional model.
- Pipeline.HandlePut: the body parser's own failures are not modelled. Each reaches
  the error handler at app.js:64-68 as a 500 envelope without the verify callback
  running: 413 for an over-long body, 415 for an unsupported charset or
  content-encoding, and 400 for an aborted body or a length mismatch. The
  envelope is therefore not sent only for integrity rejections.
- Pipeline.HandlePut: for a body sent with `Content-Encoding: gzip` or
  `deflate`, the body parser inflates it first, so the HMAC covers the inflated
  bytes, not the bytes on the wire. The model's body is the bytes the callback
  sees.
- Pipeline.HandlePut: `Server.parse` sees only the body bytes, so the model's
  decoding cannot depend on the charset named in the request.
- The exact bytes of the JSON envelopes. Bodies are kept as structured values.
- RenderRequest.Respond: the rejection value of the render promise is kept as an
  opaque string, and Express's serialisation of it is not modelled. When MathJax
  rejects with an Error object, `res.send` turns it into JSON, which omits the
  non-enumerable `message` and `stack`. The client then gets `{}` and loses the
  message.
- JavaScript strings are UTF-16 while Dafny strings are sequences of
  characters. Surrogate pairs are not modelled.
- Repeated `x-mathyd-hmac-sha256` headers are not modelled. The header is one
  optional string.
- JsValues.Get: only an object's own properties are read. None of the six
  property names the handler uses exists on a JavaScript prototype.
