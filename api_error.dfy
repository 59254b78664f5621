/**
 * `ApiError`: an error that carries the HTTP status it is reported with,
 * and its four factories with their default messages.
 */
module ApiErrors {
  import opened Wrappers
  import opened JsText

  datatype ApiError = ApiError(statusCode: int, message: JsString) {
    /** The `name` property every ApiError carries. */
    const name: JsString := Lit("ApiError")
  }

  const BAD_REQUEST_MESSAGE: JsString := Lit("Bad request")
  const NOT_FOUND_MESSAGE: JsString := Lit("Resource not found")
  const TOO_MANY_MESSAGE: JsString := Lit("Too many requests, please try again later")
  const INTERNAL_MESSAGE: JsString := Lit("Internal server error")

  /** A JavaScript default parameter: `None` is an omitted (undefined) argument. */
  function ArgumentOr(message: Option<JsString>, default: JsString): JsString {
    if message.Some? then message.value else default
  }

  function BadRequest(message: Option<JsString>): ApiError {
    ApiError(400, ArgumentOr(message, BAD_REQUEST_MESSAGE))
  }

  function NotFound(message: Option<JsString>): ApiError {
    ApiError(404, ArgumentOr(message, NOT_FOUND_MESSAGE))
  }

  function TooMany(message: Option<JsString>): ApiError {
    ApiError(429, ArgumentOr(message, TOO_MANY_MESSAGE))
  }

  function Internal(message: Option<JsString>): ApiError {
    ApiError(500, ArgumentOr(message, INTERNAL_MESSAGE))
  }

  /**
   * The factories: statuses 400, 404, 429 and 500; a given message is kept
   * verbatim, an omitted one becomes the factory's default.
   */
  lemma FactoryContracts(message: Option<JsString>)
    ensures BadRequest(message).statusCode == 400
    ensures NotFound(message).statusCode == 404
    ensures TooMany(message).statusCode == 429
    ensures Internal(message).statusCode == 500
    ensures message.Some? ==>
      && BadRequest(message).message == message.value
      && NotFound(message).message == message.value
      && TooMany(message).message == message.value
      && Internal(message).message == message.value
    ensures message.None? ==>
      && BadRequest(message).message == Lit("Bad request")
      && NotFound(message).message == Lit("Resource not found")
      && TooMany(message).message == Lit("Too many requests, please try again later")
      && Internal(message).message == Lit("Internal server error")
    ensures BadRequest(message).name == Lit("ApiError")
  {
  }
}
