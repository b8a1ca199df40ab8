/**
 * The body of the `PUT /` route in app.js once the body has been verified:
 * `JSON.parse`, the `type` check, the `tex` check, the options handed to
 * MathJax, and the response built from what MathJax returns.
 */
module RenderRequest {
  import opened Wrappers
  import opened JsValues
  import opened Http

  const InvalidTypeMessage := "invalid type"
  const MissingTexMessage := "missing tex"
  const DefaultEm := 8.0
  const DefaultEx := 16.0
  const DefaultContainerWidth := 1024.0

  /** The second argument of `tex2svgPromise`; the layout values are passed as given, whatever their type. */
  datatype RenderOptions = RenderOptions(display: bool, em: Value, ex: Value, containerWidth: Value)

  /** How `tex2svgPromise` followed by `adaptor.innerHTML` settles. */
  datatype EngineOutcome = Markup(svg: string) | EngineFailed(err: string)

  /** What the handler does with a verified body before any response is sent. */
  datatype Decision =
      /** `JSON.parse` threw, or `data` is `null` so reading `data.type` threw */
    | HandlerThrows
    | Forbidden(reason: string)
    | Render(tex: Value, options: RenderOptions)

  /** `v || fallback` */
  function Or(v: Value, fallback: Value): (r: Value)
    ensures Truthy(fallback) ==> Truthy(r)
    ensures Truthy(v) ==> r == v
    ensures !Truthy(v) ==> r == fallback
  {
    if Truthy(v) then v else fallback
  }

  /** The options object built at app.js:191-196; `data.inline` is negated, every falsy layout value is replaced. */
  function DeriveOptions(data: Value): (o: RenderOptions)
    requires CanReadProperties(data)
    ensures o.display <==> !Truthy(Get(data, Inline))
    // the engine never receives a falsy layout value
    ensures Truthy(o.em) && Truthy(o.ex) && Truthy(o.containerWidth)
    // a truthy value given in the request reaches the engine unchanged
    ensures Truthy(Get(data, Em)) ==> o.em == Get(data, Em)
    ensures Truthy(Get(data, Ex)) ==> o.ex == Get(data, Ex)
    ensures Truthy(Get(data, Width)) ==> o.containerWidth == Get(data, Width)
    // falsy and absent are the same: both give the default
    ensures !Truthy(Get(data, Em)) ==> o.em == Num(DefaultEm)
    ensures !Truthy(Get(data, Ex)) ==> o.ex == Num(DefaultEx)
    ensures !Truthy(Get(data, Width)) ==> o.containerWidth == Num(DefaultContainerWidth)
  {
    RenderOptions(
      !Truthy(Get(data, Inline)),
      Or(Get(data, Em), Num(DefaultEm)),
      Or(Get(data, Ex), Num(DefaultEx)),
      Or(Get(data, Width), Num(DefaultContainerWidth)))
  }

  /**
   * app.js:175-196 on the result of `JSON.parse` (`None` when it threw): the type
   * check first, then the tex check, then the call to the engine.
   */
  function Decide(parsed: Option<Value>): (d: Decision)
    ensures d.HandlerThrows? <==> parsed.None? || !CanReadProperties(parsed.value)
    ensures d == Forbidden(InvalidTypeMessage) <==>
              parsed.Some? && CanReadProperties(parsed.value) && Get(parsed.value, Type) != Str("svg")
    ensures d == Forbidden(MissingTexMessage) <==>
              parsed.Some? && CanReadProperties(parsed.value) && Get(parsed.value, Type) == Str("svg")
              && !Truthy(Get(parsed.value, Tex))
    ensures d.Forbidden? ==> d.reason == InvalidTypeMessage || d.reason == MissingTexMessage
    // the engine is asked only for an svg request with a truthy tex, which it receives unchanged
    ensures d.Render? ==>
              parsed.Some? && CanReadProperties(parsed.value)
              && Get(parsed.value, Type) == Str("svg") && Truthy(Get(parsed.value, Tex))
              && d.tex == Get(parsed.value, Tex) && d.options == DeriveOptions(parsed.value)
  {
    match parsed
    case None => HandlerThrows
    case Some(data) =>
      if !CanReadProperties(data) then HandlerThrows
      else if Get(data, Type) != Str("svg") then Forbidden(InvalidTypeMessage)
      else if !Truthy(Get(data, Tex)) then Forbidden(MissingTexMessage)
      else
        // `data.tex || ''` cannot fall back here: the tex check has passed
        var tex := Or(Get(data, Tex), Str(""));
        Render(tex, DeriveOptions(data))
  }

  /**
   * The response the route leaves behind: Express's own 500 page for an exception,
   * a 403 with the literal reason, or the outcome of the engine.
   */
  function Respond(d: Decision, render: (Value, RenderOptions) -> EngineOutcome): (r: Response)
    ensures r.status == 403 <==> d.Forbidden?
    ensures d.Forbidden? ==> r.body == Text(d.reason)
    ensures d.HandlerThrows? ==> r == Response(500, ExpressDefault, ExpressErrorPage)
    ensures r.status == 200 <==> d.Render? && render(d.tex, d.options).Markup?
    ensures r.status == 200 ==> r == Response(200, ApplicationJson, SvgEnvelope(render(d.tex, d.options).svg))
    ensures d.Render? && render(d.tex, d.options).EngineFailed? ==>
              r == Response(500, ExpressDefault, EngineError(render(d.tex, d.options).err))
    ensures r.status in {200, 403, 500}
  {
    match d
    case HandlerThrows => Response(500, ExpressDefault, ExpressErrorPage)
    case Forbidden(reason) => Response(403, ExpressDefault, Text(reason))
    case Render(tex, options) =>
      match render(tex, options)
      case Markup(svg) => Response(200, ApplicationJson, SvgEnvelope(svg))
      case EngineFailed(err) => Response(500, ExpressDefault, EngineError(err))
  }

  /** A request that fails both checks is reported as a bad type: the type check runs first. */
  lemma TypeCheckedBeforeTex(data: Value)
    requires CanReadProperties(data)
    requires Get(data, Type) != Str("svg") && !Truthy(Get(data, Tex))
    ensures Decide(Some(data)) == Forbidden(InvalidTypeMessage)
  {
  }

  /** `{}` has no type, so it is a bad type rather than missing tex. */
  lemma EmptyObjectIsInvalidType()
    ensures Decide(Some(Obj(map[]))) == Forbidden(InvalidTypeMessage)
  {
  }

  /** A 403 is decided without the engine: any two engines give the same response. */
  lemma ForbiddenNeverRenders(d: Decision, render1: (Value, RenderOptions) -> EngineOutcome,
                              render2: (Value, RenderOptions) -> EngineOutcome)
    requires !d.Render?
    ensures Respond(d, render1) == Respond(d, render2)
  {
  }

  /** An explicit falsy layout value is indistinguishable from leaving the field out. */
  lemma FalsyLayoutIsAbsent(props: map<string, Value>, f: Field)
    requires f == Em || f == Ex || f == Width
    requires Name(f) in props && !Truthy(props[Name(f)])
    ensures DeriveOptions(Obj(props)) == DeriveOptions(Obj(props - {Name(f)}))
  {
    var without := props - {Name(f)};
    assert Get(Obj(without), f) == Undefined;
    forall g: Field | g != f
      ensures Get(Obj(props), g) == Get(Obj(without), g)
    {
      assert Name(g) != Name(f);
    }
  }

  /** `{"type":"svg"}` and `{"type":"svg","tex":""}` both miss their tex. */
  lemma SvgWithoutTex()
    ensures Decide(Some(Obj(map["type" := Str("svg")]))) == Forbidden(MissingTexMessage)
    ensures Decide(Some(Obj(map["type" := Str("svg"), "tex" := Str("")]))) == Forbidden(MissingTexMessage)
  {
  }

  /** `{"type":"png","tex":"x=1"}` is a bad type. */
  lemma PngIsInvalidType()
    ensures Decide(Some(Obj(map["type" := Str("png"), "tex" := Str("x=1")]))) == Forbidden(InvalidTypeMessage)
  {
  }

  /** `{"type":"svg","tex":"x=1"}` reaches the engine with display mode and the default layout. */
  lemma MinimalRequestRenders()
    ensures Decide(Some(Obj(map["type" := Str("svg"), "tex" := Str("x=1")])))
         == Render(Str("x=1"), RenderOptions(true, Num(8.0), Num(16.0), Num(1024.0)))
  {
    var data := Obj(map["type" := Str("svg"), "tex" := Str("x=1")]);
    assert Get(data, Type) == Str("svg");
    assert Get(data, Tex) == Str("x=1");
  }
}
