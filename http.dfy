/** The response the Express `res` object ends up holding once a handler has finished. */
module Http {

  /** Whether the code set `Content-Type: application/json` itself, or left it to Express. */
  datatype ContentType = ApplicationJson | ExpressDefault

  datatype Body =
      /** the JSON object `{error: message}` sent by the error handler */
    | ErrorEnvelope(error: string)
      /** a literal string sent with `res.send` */
    | Text(text: string)
      /** the JSON text of `{svg: markup}` */
    | SvgEnvelope(svg: string)
      /** the rejection value of the render promise, serialised by Express */
    | EngineError(err: string)
      /** the page Express's default final handler sends for an exception no error handler sees */
    | ExpressErrorPage

  datatype Response = Response(status: int, contentType: ContentType, body: Body)
}
