/**
 * One `PUT /` request through app.js from end to end: the body parser with its
 * verify callback, the error handler registered right after it, and the route.
 */
module Pipeline {
  import opened Wrappers
  import opened JsValues
  import opened Http
  import opened Integrity
  import opened RenderRequest

  /**
   * What a request brings: whether its Content-Type is `application/json` (the only
   * type the text body parser reads), the `x-mathyd-hmac-sha256` header, and the raw
   * body bytes, if the request has a body at all.
   */
  datatype Request = Request(jsonContentType: bool, hmacHeader: Option<string>, body: Option<seq<byte>>)

  /**
   * The process-wide configuration and the foreign code the pipeline calls:
   * MATHYD_HMAC_KEY, Node's `crypto`, `JSON.parse` applied to the decoded body
   * (`None` when it throws), and the MathJax engine.
   */
  datatype Server = Server(
    hmacKey: Option<string>,
    crypto: Crypto,
    parse: seq<byte> -> Option<Value>,
    render: (Value, RenderOptions) -> EngineOutcome)

  /** The verify callback runs only when the body parser reads the body. */
  predicate BodyRead(req: Request): (read: bool)
    ensures read ==> req.body.Some?
  {
    req.jsonContentType && req.body.Some?
  }

  /** The header carries the digest of these exact bytes under a usable key. */
  predicate Authentic(s: Server, req: Request) {
    BodyRead(req) && s.hmacKey.Some? && s.hmacKey.value != ""
    && req.hmacHeader == Some(s.crypto.hmacSha256Hex(s.hmacKey.value, req.body.value))
  }

  /** The error handler at app.js:64-68: any error that reaches it becomes a 500 with `{error: message}`. */
  function ErrorHandler(message: string): (r: Response)
    ensures r.status == 500 && r.contentType == ApplicationJson
    ensures r.body.ErrorEnvelope? && r.body.error == message
  {
    Response(500, ApplicationJson, ErrorEnvelope(message))
  }

  /**
   * The whole request. A body the parser does not read leaves `req.body` an empty
   * object, which `JSON.parse` rejects; a verify failure never reaches the route.
   */
  function HandlePut(s: Server, req: Request): (r: Response)
    ensures r.status in {200, 403, 500}
    // nothing but an authentic request gets past the integrity check
    ensures r.status != 500 ==> Authentic(s, req)
    // the error envelope is exactly the integrity rejections
    ensures r.body.ErrorEnvelope? <==>
              BodyRead(req) && Verify(s.hmacKey, s.crypto, req.hmacHeader, req.body.value).Rejected?
    ensures r.body.ErrorEnvelope? ==> r.status == 500 && r.contentType == ApplicationJson
    // an authentic request is decided by the route alone
    ensures Authentic(s, req) ==> r == Respond(Decide(s.parse(req.body.value)), s.render)
    ensures !BodyRead(req) ==> r == Response(500, ExpressDefault, ExpressErrorPage)
  {
    if !BodyRead(req) then
      Respond(Decide(None), s.render)
    else
      match Verify(s.hmacKey, s.crypto, req.hmacHeader, req.body.value)
      case Rejected(reason) => ErrorHandler(Message(reason))
      case Verified => Respond(Decide(s.parse(req.body.value)), s.render)
  }

  /** With MATHYD_HMAC_KEY empty every read body is refused, even one signed with the empty key. */
  lemma EmptyKeyFailsClosed(s: Server, req: Request)
    requires s.hmacKey == Some("") && BodyRead(req)
    ensures HandlePut(s, req) == Response(500, ApplicationJson, ErrorEnvelope("hmac key not set"))
  {
  }

  /** With MATHYD_HMAC_KEY unset, `crypto` throws and its message is what the client sees. */
  lemma AbsentKeyFailsInCrypto(s: Server, req: Request)
    requires s.hmacKey.None? && BodyRead(req)
    ensures HandlePut(s, req) == Response(500, ApplicationJson, ErrorEnvelope(s.crypto.undefinedKeyError))
  {
  }

  /** With a usable key, a wrong or absent header is a mismatch. */
  lemma WrongCodeIsMismatch(s: Server, req: Request)
    requires s.hmacKey.Some? && s.hmacKey.value != "" && BodyRead(req)
    requires req.hmacHeader != Some(s.crypto.hmacSha256Hex(s.hmacKey.value, req.body.value))
    ensures HandlePut(s, req) == Response(500, ApplicationJson, ErrorEnvelope("hmac mismatch"))
  {
  }

  /** An integrity failure is answered without parsing or rendering: neither can change the response. */
  lemma RejectionShortCircuits(s1: Server, s2: Server, req: Request)
    requires s1.hmacKey == s2.hmacKey && s1.crypto == s2.crypto
    requires BodyRead(req) && !Authentic(s1, req)
    ensures HandlePut(s1, req) == HandlePut(s2, req)
    ensures HandlePut(s1, req).status == 500
  {
  }

  /** `{}` signed correctly under the key `secret` is a bad type. */
  lemma SignedEmptyObjectIsInvalidType(s: Server, body: seq<byte>)
    requires s.hmacKey == Some("secret") && s.parse(body) == Some(Obj(map[]))
    ensures HandlePut(s, Request(true, Some(s.crypto.hmacSha256Hex("secret", body)), Some(body)))
         == Response(403, ExpressDefault, Text("invalid type"))
  {
    EmptyObjectIsInvalidType();
  }

  /** An authentic body that `JSON.parse` rejects ends in Express's own 500, not in the error envelope. */
  lemma ParseFailureIsNotEnveloped(s: Server, req: Request)
    requires Authentic(s, req) && s.parse(req.body.value).None?
    ensures HandlePut(s, req) == Response(500, ExpressDefault, ExpressErrorPage)
  {
  }

  /** An authentic, well-formed request: the engine gets the tex and derived options, and its outcome decides the response. */
  lemma RenderOutcome(s: Server, req: Request)
    requires Authentic(s, req)
    requires Decide(s.parse(req.body.value)).Render?
    ensures var d := Decide(s.parse(req.body.value));
            match s.render(d.tex, d.options)
            case Markup(svg) => HandlePut(s, req) == Response(200, ApplicationJson, SvgEnvelope(svg))
            case EngineFailed(err) => HandlePut(s, req) == Response(500, ExpressDefault, EngineError(err))
  {
  }

  /** A 200 carries markup the engine produced for this request's tex. */
  lemma SuccessCameFromEngine(s: Server, req: Request)
    requires HandlePut(s, req).status == 200
    ensures Authentic(s, req)
    ensures var data := s.parse(req.body.value);
            data.Some? && CanReadProperties(data.value) && Get(data.value, Type) == Str("svg")
            && Truthy(Get(data.value, Tex))
            && HandlePut(s, req).body == SvgEnvelope(s.render(Get(data.value, Tex), DeriveOptions(data.value)).svg)
  {
  }
}
