/**
 * The error handler at the end of the middleware chain: an `ApiError` is
 * reported with its own status and message; anything else is logged and
 * reported as a 500 with a fixed message.
 */
module ErrorHandling {
  import opened Wrappers
  import opened JsText
  import opened ApiErrors
  import opened Http

  /** What reaches the handler through `next(err)`. */
  datatype Error =
    | Api(apiError: ApiError)
    | Unclassified(detail: JsString)   // any other thrown value; `detail` is all it says

  /** The response sent and the detail written to the server log, if any. */
  datatype Handled = Handled(response: Response, logged: Option<JsString>)

  const UNHANDLED_MESSAGE: JsString := Lit("Internal server error")

  function ErrorHandler(err: Error): (h: Handled)
    ensures h.response.body.ErrorBody? && !h.response.body.Success()
  {
    match err
    case Api(e) => Handled(Response(e.statusCode, ErrorBody(e.message)), None)
    case Unclassified(detail) => Handled(Response(500, ErrorBody(UNHANDLED_MESSAGE)), Some(detail))
  }

  /** An `ApiError` is answered with its own status and message, and nothing is logged. */
  lemma ApiErrorAnswered(e: ApiError)
    ensures ErrorHandler(Api(e)).response == Response(e.statusCode, ErrorBody(e.message))
    ensures ErrorHandler(Api(e)).logged == None
  {
  }

  /**
   * Any other error is answered 500 "Internal server error" whatever it says:
   * two such errors get the same response, and the detail goes only to the log.
   */
  lemma UnclassifiedHidesDetail(d1: JsString, d2: JsString)
    ensures ErrorHandler(Unclassified(d1)).response == ErrorHandler(Unclassified(d2)).response
    ensures ErrorHandler(Unclassified(d1)).response == Response(500, ErrorBody(Lit("Internal server error")))
    ensures ErrorHandler(Unclassified(d1)).logged == Some(d1)
  {
  }

  /**
   * Through the handler, each factory yields its status, and `internal()`
   * with its default message is indistinguishable from an unclassified error.
   */
  lemma FactoriesThroughHandler(message: Option<JsString>, detail: JsString)
    ensures ErrorHandler(Api(BadRequest(message))).response.status == 400
    ensures ErrorHandler(Api(NotFound(message))).response.status == 404
    ensures ErrorHandler(Api(TooMany(message))).response.status == 429
    ensures ErrorHandler(Api(Internal(message))).response.status == 500
    ensures ErrorHandler(Api(Internal(None))).response == ErrorHandler(Unclassified(detail)).response
  {
  }
}
